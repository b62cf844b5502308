/** Recursion that the reference guard does not see: loops through subschemas tried in contexts of their own. */
module SchemaLoops {
  import opened JsonValue
  import opened SchemaGraph
  import opened SchemaLaws
  import opened SchemaTermination
  import opened SchemaKeywords
  import opened SchemaKeywordLaws

  // ---------------------------------------------------------------------
  // Actions that do nothing
  // ---------------------------------------------------------------------

  predicate Idle(act: Action) {
    act == Mark({}) || (act.Guarded? && forall i :: 0 <= i < |act.body| ==> Idle(act.body[i]))
  }

  predicate AllIdle(acts: seq<Action>) {
    forall i :: 0 <= i < |acts| ==> Idle(acts[i])
  }

  lemma {:induction false} IdleRuns(fuel: nat, acts: seq<Action>, f: Frame, st: State)
    requires AllIdle(acts)
    ensures RunActions(fuel, acts, f, st) == Some(st)
    decreases acts
  {
    if acts != [] {
      if acts[0].Guarded? {
        IdleRuns(fuel, acts[0].body, f, st);
      } else {
        assert st.tracker.Some? ==> st.tracker.value + {} == st.tracker.value;
      }
      IdleRuns(fuel, acts[1..], f, st);
    }
  }

  lemma BothIdle(a: seq<Action>, b: seq<Action>)
    requires AllIdle(a) && AllIdle(b)
    ensures AllIdle(a + b)
  {
  }

  lemma ValuesAreIdle(k: Keywords, x: Json)
    requires ValueMeaning(k, x)
    ensures AllIdle(ValuePart(k, x))
  {
    ValuesAllowed(k, x);
    assert forall i :: 0 <= i < 3 ==> ValuePart(k, x)[i] == Guarded([Check(true)]);
    assert Idle(Guarded([Check(true)]));
  }

  /** The type-specific keywords hold of the instance by themselves: no subschema applies to a part of it. */
  predicate Undemanding(k: Keywords, x: Json) {
    match x
    case Arr(items) =>
      && InRange(|items|, k.minItems, k.maxItems)
      && (k.uniqueItems ==> forall i :: 0 <= i < |items| ==> !RepeatedLater(items, i))
      && (items == [] || (k.prefixItems == [] && k.items.None?)) && k.contains.None?
    case Obj(members) =>
      && InRange(|members|, k.minProperties, k.maxProperties)
      && (forall i :: 0 <= i < |k.required| ==> k.required[i] in members)
      && DependenciesMet(k.dependentRequired, members)
      && (forall i :: 0 <= i < |k.dependentSchemas| ==> k.dependentSchemas[i].0 !in members)
      && (|members| == 0 || (k.propertyNames.None? && k.additionalProperties.None?))
      && (forall name :: name in members ==> !Covered(k, name))
    case _ => k.scalarErrors(x) == 0
  }

  lemma ArrayIsIdle(k: Keywords, x: Json)
    requires x.Arr? && Undemanding(k, x)
    ensures AllIdle(ArrayPart(k, x.items))
  {
    var items := x.items;
    var unique := UniquePart(k, items);
    forall i | 0 <= i < |unique|
      ensures Idle(unique[i])
    {
      assert unique[i] == Guarded([Check(!RepeatedLater(items, i))]);
    }
    BothIdle(Within(|items|, k.minItems, k.maxItems), unique);
    assert PrefixPart(k, items) + ItemsPart(k, items) + ContainsPart(k, items) == [];
  }

  lemma {:induction false} DependentRequiredIsIdle(required: seq<(Text, seq<Text>)>, m: map<Text, Json>)
    requires DependenciesMet(required, m)
    ensures AllIdle(DependentRequiredPart(required, m))
  {
    if required != [] {
      var first := if required[0].0 in m then RequiredPart(required[0].1, m) else [];
      assert AllIdle(first);
      DependentRequiredIsIdle(required[1..], m);
      BothIdle(first, DependentRequiredPart(required[1..], m));
    }
  }

  lemma MemberIsIdle(k: Keywords, name: Text, value: Json)
    requires !Covered(k, name) && k.additionalProperties.None?
    ensures Idle(Guarded(MemberPart(k, name, value)))
  {
    assert NamedPart(k, name, value) == [] && AdditionalPart(k, name, value) == [];
    BothIdle(PatternsPart(k, name, value), [MarkOf(k, name)]);
    assert MemberPart(k, name, value) == PatternsPart(k, name, value) + [MarkOf(k, name)];
  }

  lemma MembersAreIdle(k: Keywords, x: Json, names: seq<Text>)
    requires x.Obj? && Undemanding(k, x) && forall i :: 0 <= i < |names| ==> names[i] in x.members
    ensures AllIdle(NamesPart(k, names) + MembersPart(k, x.members, names))
  {
    var members := MembersPart(k, x.members, names);
    assert |names| > 0 ==> names[0] in x.members;
    forall i | 0 <= i < |members|
      ensures Idle(members[i])
    {
      MemberIsIdle(k, names[i], x.members[names[i]]);
    }
    BothIdle(NamesPart(k, names), members);
  }

  lemma ObjectIsIdle(k: Keywords, x: Json, names: seq<Text>)
    requires x.Obj? && Undemanding(k, x) && forall i :: 0 <= i < |names| ==> names[i] in x.members
    ensures AllIdle(ObjectPart(k, x, names))
  {
    var m := x.members;
    var size, required := Within(|m|, k.minProperties, k.maxProperties), RequiredPart(k.required, m);
    var walk, dependent := NamesPart(k, names) + MembersPart(k, m, names), DependentPart(k, x);
    MembersAreIdle(k, x, names);
    DependentRequiredIsIdle(k.dependentRequired, m);
    BothIdle(size, required);
    BothIdle(DependentRequiredPart(k.dependentRequired, m), dependent);
    BothIdle(walk, DependentRequiredPart(k.dependentRequired, m) + dependent);
    BothIdle(size + required, walk + (DependentRequiredPart(k.dependentRequired, m) + dependent));
  }

  lemma UndemandingIsIdle(k: Keywords, x: Json, names: seq<Text>)
    requires Undemanding(k, x) && (x.Obj? ==> forall i :: 0 <= i < |names| ==> names[i] in x.members)
    ensures AllIdle(TypeSpecificPart(k, x, names))
  {
    match x
    case Arr(_) => ArrayIsIdle(k, x);
    case Obj(_) => ObjectIsIdle(k, x, names);
    case _ =>
  }

  // ---------------------------------------------------------------------
  // Loops
  // ---------------------------------------------------------------------

  /** Whatever runs of the action return, on this instance and without earlier errors, they add none. */
  ghost predicate AddsNoError(s: Schema, x: Json, act: Action) {
    forall fuel: nat, f: Frame, st: State ::
      f.schema == s && f.instance == x && st.IsValid() && RunAction(fuel, act, f, st).Some? ==>
        RunAction(fuel, act, f, st).value.IsValid()
  }

  /** No run of the subschema that returns finds the instance valid. */
  ghost predicate Refuses(s: Schema, x: Json, child: nat) {
    forall fuel: nat, f: Frame, st: State ::
      f.schema == s && f.instance == x && RunNode(fuel, child, f, st).Some? ==>
        !RunNode(fuel, child, f, st).value.IsValid()
  }

  /** The alternatives before the `i`-th, but for `spare`, refuse the instance. */
  ghost predicate Reached(s: Schema, x: Json, children: seq<nat>, i: nat, spare: nat) {
    i < |children| && forall k :: 0 <= k < i && k != spare ==> Refuses(s, x, children[k])
  }

  /**
   * An anyOf, oneOf, not or if that comes to try this subschema: anyOf after
   * alternatives that refuse the instance, oneOf after one more at most.
   */
  ghost predicate Tries(s: Schema, x: Json, act: Action, child: nat) {
    || (act.AnyOf? && exists i: nat :: Reached(s, x, act.children, i, i) && act.children[i] == child)
    || (act.OneOf? && exists i: nat, spare: nat :: Reached(s, x, act.children, i, spare) && act.children[i] == child)
    || act == Not(child)
    || (act.IfThenElse? && act.condition == child)
  }

  /**
   * A loop: its nodes, each with a rank. The action tries a node of the loop
   * in a context of its own, or visits a node of lower rank on the instance.
   */
  ghost predicate LeadsInto(s: Schema, x: Json, act: Action, rank: nat, loop: map<nat, nat>)
    decreases act
  {
    || (exists child :: Tries(s, x, act, child) && child in loop)
    || (act.Visit? && act.instance == x && act.step == [] && Falls(act.child, rank, loop))
    || (act.Guarded? && AllLeadInto(s, x, act.body, rank, loop))
  }

  predicate Falls(n: nat, rank: nat, loop: map<nat, nat>) {
    n in loop && loop[n] < rank
  }

  /** Some action leads into the loop, and those before it add no error. */
  ghost predicate AllLeadInto(s: Schema, x: Json, acts: seq<Action>, rank: nat, loop: map<nat, nat>)
    decreases acts
  {
    exists j ::
      && 0 <= j < |acts| && LeadsInto(s, x, acts[j], rank, loop)
      && forall i :: 0 <= i < j ==> AddsNoError(s, x, acts[i])
  }

  /** A reference leads to a node of lower rank, wherever it is resolved. */
  predicate RefersInto(s: Schema, node: Node, rank: nat, loop: map<nat, nat>) {
    match node
    case RefSchema(target, _) => target.Some? && Falls(target.value, rank, loop)
    case DynamicRefSchema(target, anchor) =>
      && target.Some? && Falls(target.value, rank, loop)
      && forall r :: r in s.resourceAnchors && anchor in s.resourceAnchors[r] ==>
                       Falls(s.resourceAnchors[r][anchor], rank, loop)
    case _ => false
  }

  /** On this instance every node of the loop leads into it. */
  ghost predicate Loop(s: Schema, x: Json, loop: map<nat, nat>) {
    forall n :: n in loop ==>
      && n < |s.nodes|
      && if s.nodes[n].ObjectSchema? then AllLeadInto(s, x, s.nodes[n].plan(x), loop[n], loop)
         else RefersInto(s, s.nodes[n], loop[n], loop)
  }

  /** The references being expanded at this path have not been left below the rank. */
  ghost predicate FallsFrom(f: Frame, rank: nat, loop: map<nat, nat>) {
    && Loop(f.schema, f.instance, loop) && ScopeOfSchema(f)
    && forall k :: 0 <= k < |f.active| && f.active[k].1 == f.at && f.active[k].0 in loop ==> loop[f.active[k].0] >= rank
  }

  /**
   * The guard ends loops of references and visits. Those through subschemas
   * tried in contexts of their own it never notices, as these start without
   * active references: no bound on the call depth is enough.
   */
  lemma {:induction false} LoopNeverReturns(fuel: nat, n: nat, f: Frame, st: State, loop: map<nat, nat>)
    requires n in loop && FallsFrom(f, loop[n], loop) && st.IsValid()
    ensures RunNode(fuel, n, f, st).None?
    decreases fuel, 0
  {
    if fuel > 0 {
      match f.schema.nodes[n]
      case BooleanSchema(_) =>
      case ObjectSchema(plan, tracked, selfIndex) =>
        PushedScope(f, selfIndex);
        ActionsNeverReturn(fuel - 1, plan(f.instance), loop[n], PushResource(f, selfIndex),
                           if tracked then State(st.errors, Some({})) else st, loop);
      case _ => ReferenceNeverReturns(fuel, n, f, st, loop);
    }
  }

  lemma {:induction false} ReferenceNeverReturns(fuel: nat, n: nat, f: Frame, st: State, loop: map<nat, nat>)
    requires n in loop && FallsFrom(f, loop[n], loop) && st.IsValid() && fuel > 0
    requires f.schema.nodes[n].RefSchema? || f.schema.nodes[n].DynamicRefSchema?
    ensures RunNode(fuel, n, f, st).None?
    decreases fuel - 1, 2
  {
    match f.schema.nodes[n]
    case RefSchema(target, selfIndex) =>
      PushedScope(f, selfIndex);
      TargetNeverReturns(fuel - 1, target.value, loop[n], PushResource(f, selfIndex), st, loop);
    case DynamicRefSchema(target, anchor) =>
      DynamicTargetIsDeclared(f, target.value, anchor);
      TargetNeverReturns(fuel - 1, DynamicTarget(f, target.value, anchor), loop[n], f, st, loop);
  }

  lemma {:induction false} TargetNeverReturns(fuel: nat, target: nat, rank: nat, f: Frame, st: State,
                                              loop: map<nat, nat>)
    requires FallsFrom(f, rank, loop) && Falls(target, rank, loop) && st.IsValid()
    ensures RunTarget(fuel, target, f, st).None?
    decreases fuel, 1
  {
    assert (target, f.at) !in f.active;
    var next := PushResource(f, Some(target)).(active := f.active + [(target, f.at)]);
    PushedScope(f, Some(target));
    LoopNeverReturns(fuel, target, next, st, loop);
  }

  lemma {:induction false} ActionsNeverReturn(fuel: nat, acts: seq<Action>, rank: nat, f: Frame, st: State,
                                             loop: map<nat, nat>)
    requires FallsFrom(f, rank, loop) && AllLeadInto(f.schema, f.instance, acts, rank, loop) && st.IsValid()
    ensures RunActions(fuel, acts, f, st).None?
    decreases fuel, 7, acts
  {
    var j :| && 0 <= j < |acts| && LeadsInto(f.schema, f.instance, acts[j], rank, loop)
             && forall i :: 0 <= i < j ==> AddsNoError(f.schema, f.instance, acts[i]);
    if j == 0 {
      ActionNeverReturns(fuel, acts[0], rank, f, st, loop);
    } else if RunAction(fuel, acts[0], f, st).Some? {
      var rest := acts[1..];
      assert AddsNoError(f.schema, f.instance, acts[0]);
      assert rest[j - 1] == acts[j] && forall i :: 0 <= i < j - 1 ==> rest[i] == acts[i + 1];
      ActionsNeverReturn(fuel, rest, rank, f, RunAction(fuel, acts[0], f, st).value, loop);
    }
  }

  lemma {:induction false} ActionNeverReturns(fuel: nat, act: Action, rank: nat, f: Frame, st: State,
                                              loop: map<nat, nat>)
    requires FallsFrom(f, rank, loop) && LeadsInto(f.schema, f.instance, act, rank, loop) && st.IsValid()
    ensures RunAction(fuel, act, f, st).None?
    decreases fuel, 7, act
  {
    if child: nat :| Tries(f.schema, f.instance, act, child) && child in loop {
      var probes, limit := ProbesOf(act, f.instance, st.tracker.Some?), LimitOf(act, st.tracker.Some?);
      var i, spare := ProbeReached(f.schema, f.instance, act, child, st.tracker.Some?);
      LoopNeverReturns(fuel, child, ProbeFrame(f, probes[i]), ProbeState(probes[i]), loop);
      ProbesStop(fuel, f, probes, 0, i, spare, limit, []);
    } else if act.Guarded? {
      ActionsNeverReturn(fuel, act.body, rank, f, st, loop);
    } else {
      assert f.at + [] == f.at;
      LoopNeverReturns(fuel, act.child, f.(instance := act.instance, at := f.at + act.step),
                       if act.suspended then State(st.errors, None) else st, loop);
    }
  }

  /** Where a subschema stands among the probes, and that the limit of hits is not reached before it. */
  ghost predicate StandsAt(s: Schema, x: Json, probes: seq<Probe>, i: nat, spare: nat, limit: Option<nat>) {
    && i < |probes|
    && (forall k :: 0 <= k < |probes| ==> probes[k].instance == x)
    && (forall k :: 0 <= k < i && k != spare ==> Refuses(s, x, probes[k].child))
    && (limit.Some? ==> (if spare < i then 1 else 0) < limit.value)
  }

  lemma ProbeReached(s: Schema, x: Json, act: Action, child: nat, tracked: bool) returns (i: nat, spare: nat)
    requires Tries(s, x, act, child)
    ensures act.Probes() && StandsAt(s, x, ProbesOf(act, x, tracked), i, spare, LimitOf(act, tracked))
    ensures ProbesOf(act, x, tracked)[i].child == child
  {
    i, spare := 0, 0;
    if act.AnyOf? {
      i :| Reached(s, x, act.children, i, i) && act.children[i] == child;
      spare := i;
    } else if act.OneOf? {
      i, spare :| Reached(s, x, act.children, i, spare) && act.children[i] == child;
    }
  }

  /** The probes do not end before one that never returns. */
  lemma {:induction false} ProbesStop(fuel: nat, f: Frame, probes: seq<Probe>, i: nat, last: nat, spare: nat,
                                     limit: Option<nat>, hits: seq<Hit>)
    requires i <= last && StandsAt(f.schema, f.instance, probes, last, spare, limit)
    requires |hits| <= if spare < i then 1 else 0
    requires RunNode(fuel, probes[last].child, ProbeFrame(f, probes[last]), ProbeState(probes[last])).None?
    ensures RunProbes(fuel, f, probes, i, limit, hits).None?
    decreases last - i
  {
    var run := RunNode(fuel, probes[i].child, ProbeFrame(f, probes[i]), ProbeState(probes[i]));
    if i < last && run.Some? {
      assert run.value.IsValid() ==> i == spare by {
        assert i != spare ==> Refuses(f.schema, f.instance, probes[i].child);
      }
      var more := if run.value.IsValid() then hits + [Hit(i, run.value.tracker.GetOr({}))] else hits;
      ProbesStop(fuel, f, probes, i + 1, last, spare, limit, more);
    }
  }

  // ---------------------------------------------------------------------
  // Loops of compiled schema objects
  // ---------------------------------------------------------------------

  /**
   * The keywords of a schema object that lead into the loop at the `j`-th
   * combinator on this instance: the assertions hold, and neither the
   * type-specific keywords nor the combinators before it add an error.
   */
  ghost predicate StepsInto(s: Schema, x: Json, k: Keywords, order: MemberOrder, j: nat, rank: nat,
                            loop: map<nat, nat>) {
    && ValueMeaning(k, x)
    && AddsNoError(s, x, Guarded(TypeSpecificPart(k, x, NamesOf(order, x))))
    && var combined := CombinatorPart(k, x);
       && j < |combined| && LeadsInto(s, x, combined[j], rank, loop)
       && forall i :: 0 <= i < j ==> AddsNoError(s, x, combined[i])
  }

  lemma IdleAddsNoError(s: Schema, x: Json, act: Action)
    requires Idle(act)
    ensures AddsNoError(s, x, act)
  {
    forall fuel: nat, f: Frame, st: State | f.schema == s && f.instance == x && st.IsValid()
      ensures RunAction(fuel, act, f, st) == Some(st)
    {
      IdleRuns(fuel, [act], f, st);
      Singly(fuel, act, f, st);
    }
  }

  /** Compiled schema objects whose keywords lead into the loop do so. */
  lemma KeywordsLeadInto(s: Schema, x: Json, k: Keywords, order: MemberOrder, j: nat, rank: nat, loop: map<nat, nat>)
    requires StepsInto(s, x, k, order, j, rank, loop)
    ensures AllLeadInto(s, x, Plan(k, order, x), rank, loop)
  {
    var acts, combined := Plan(k, order, x), CombinatorPart(k, x);
    assert AllLeadInto(s, x, combined, rank, loop);
    assert acts[4] == Guarded(combined) && LeadsInto(s, x, acts[4], rank, loop);
    ValuesAreIdle(k, x);
    forall i | 0 <= i < 4
      ensures AddsNoError(s, x, acts[i])
    {
      if i < 3 {
        assert acts[i] == ValuePart(k, x)[i];
        IdleAddsNoError(s, x, acts[i]);
      }
    }
  }

  lemma PlanOfNode(s: Schema, n: nat, x: Json, k: Keywords, order: MemberOrder)
    requires Compiled(s, n, k, order)
    ensures s.nodes[n].plan(x) == Plan(k, order, x)
  {
  }

  /** On this instance the keywords of every schema object of the loop, and its references, lead into it. */
  ghost predicate CompiledLoop(s: Schema, x: Json, keywords: seq<Keywords>, order: MemberOrder, loop: map<nat, nat>)
    requires |keywords| == |s.nodes|
  {
    forall n :: n in loop ==>
      && n < |s.nodes|
      && if s.nodes[n].ObjectSchema? then
           Compiled(s, n, keywords[n], order) && exists j :: StepsInto(s, x, keywords[n], order, j, loop[n], loop)
         else RefersInto(s, s.nodes[n], loop[n], loop)
  }

  /** Validation of such a loop of compiled schema objects and references never returns. */
  lemma CompiledLoopNeverReturns(fuel: nat, n: nat, f: Frame, st: State,
                                 keywords: seq<Keywords>, order: MemberOrder, loop: map<nat, nat>)
    requires |keywords| == |f.schema.nodes| && CompiledLoop(f.schema, f.instance, keywords, order, loop)
    requires n in loop && st.IsValid() && ScopeOfSchema(f) && f.active == []
    ensures RunNode(fuel, n, f, st).None?
  {
    var s, x := f.schema, f.instance;
    forall m | m in loop && s.nodes[m].ObjectSchema?
      ensures AllLeadInto(s, x, s.nodes[m].plan(x), loop[m], loop)
    {
      var j :| StepsInto(s, x, keywords[m], order, j, loop[m], loop);
      KeywordsLeadInto(s, x, keywords[m], order, j, loop[m], loop);
      PlanOfNode(s, m, x, keywords[m], order);
    }
    LoopNeverReturns(fuel, n, f, st, loop);
  }

  // ---------------------------------------------------------------------
  // Loops that show in the keywords
  // ---------------------------------------------------------------------

  /** The subschema that the combinators of an object without allOf start with. */
  function FirstTried(k: Keywords): Option<nat> {
    if k.anyOf != [] then Some(k.anyOf[0])
    else if k.oneOf != [] then Some(k.oneOf[0])
    else if k.notSchema.Some? then k.notSchema
    else k.ifSchema
  }

  /** The keywords ask nothing before their first combinator, and that starts with a node of the loop. */
  ghost predicate LeadsBack(x: Json, k: Keywords, rank: nat, loop: map<nat, nat>) {
    && ValueMeaning(k, x) && Undemanding(k, x)
    && if k.allOf != [] then Falls(k.allOf[0], rank, loop) else FirstTried(k).Some? && FirstTried(k).value in loop
  }

  lemma FirstLeadsInto(s: Schema, x: Json, k: Keywords, rank: nat, loop: map<nat, nat>)
    requires LeadsBack(x, k, rank, loop)
    ensures CombinatorPart(k, x) != [] && LeadsInto(s, x, CombinatorPart(k, x)[0], rank, loop)
  {
    var first := CombinatorPart(k, x)[0];
    if k.allOf != [] {
      var visit := Visit(k.allOf[0], x, [], false);
      assert first == Guarded([visit]) && [visit][0] == visit;
      assert LeadsInto(s, x, visit, rank, loop);
      assert AllLeadInto(s, x, [visit], rank, loop);
    } else if k.anyOf != [] {
      assert Reached(s, x, k.anyOf, 0, 0) && Tries(s, x, first, k.anyOf[0]);
    } else if k.oneOf != [] {
      assert Reached(s, x, k.oneOf, 0, 0) && Tries(s, x, first, k.oneOf[0]);
    } else {
      assert Tries(s, x, first, FirstTried(k).value);
    }
  }

  /**
   * A check on the keywords alone: if each schema object of the loop holds of
   * the instance but for its combinators, and the first of these starts with a
   * node of the loop, validation never returns.
   */
  lemma LeadingBackNeverReturns(fuel: nat, n: nat, f: Frame, st: State,
                                keywords: seq<Keywords>, order: MemberOrder, loop: map<nat, nat>)
    requires |keywords| == |f.schema.nodes| && n in loop && st.IsValid() && ScopeOfSchema(f) && f.active == []
    requires forall m :: m in loop ==>
               && m < |keywords|
               && if f.schema.nodes[m].ObjectSchema? then
                    Compiled(f.schema, m, keywords[m], order) && LeadsBack(f.instance, keywords[m], loop[m], loop)
                  else RefersInto(f.schema, f.schema.nodes[m], loop[m], loop)
    ensures RunNode(fuel, n, f, st).None?
  {
    forall m | m in loop && f.schema.nodes[m].ObjectSchema?
      ensures StepsInto(f.schema, f.instance, keywords[m], order, 0, loop[m], loop)
    {
      LeadingBackStepsInto(f.schema, f.instance, keywords[m], order, loop[m], loop);
    }
    CompiledLoopNeverReturns(fuel, n, f, st, keywords, order, loop);
  }

  lemma LeadingBackStepsInto(s: Schema, x: Json, k: Keywords, order: MemberOrder, rank: nat, loop: map<nat, nat>)
    requires LeadsBack(x, k, rank, loop)
    ensures StepsInto(s, x, k, order, 0, rank, loop)
  {
    var specific := TypeSpecificPart(k, x, NamesOf(order, x));
    UndemandingIsIdle(k, x, NamesOf(order, x));
    assert Idle(Guarded(specific));
    IdleAddsNoError(s, x, Guarded(specific));
    FirstLeadsInto(s, x, k, rank, loop);
  }
}
