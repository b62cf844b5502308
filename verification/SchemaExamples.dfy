/** Schemas on which validation does not do what one expects, compiled from their keywords. */
module SchemaExamples {
  import opened JsonValue
  import opened SchemaGraph
  import opened SchemaLaws
  import opened SchemaTermination
  import opened SchemaEntry
  import opened SchemaReading
  import opened SchemaMeaning
  import opened SchemaLeak
  import opened SchemaGuard
  import opened SchemaScope
  import opened SchemaKeywords
  import opened SchemaKeywordLaws
  import opened SchemaCompiled
  import opened SchemaLoops

  /** {} */
  function NoKeywords(): Keywords {
    Keywords(_ => false, None, None, _ => 0,
             None, None, false, [], None, None, None, None,
             None, None, [], None, map[], [], None, None, [], [],
             [], [], [], None, None, None, None,
             None, None)
  }

  ghost function ListOf(names: set<Text>): (r: seq<Text>)
    ensures forall i :: 0 <= i < |r| ==> r[i] in names
    ensures forall name :: name in names ==> name in r
    ensures forall i, j :: 0 <= i < j < |r| ==> r[i] != r[j]
  {
    if names == {} then []
    else
      var name :| name in names;
      [name] + ListOf(names - {name})
  }

  /** There are orders to walk the members in. */
  lemma MembersCanBeListed()
    ensures exists order: MemberOrder :: Enumerates(order)
  {
    var order: MemberOrder := (m: map<Text, Json>) => ListOf(m.Keys);
    assert Enumerates(order);
  }

  // ---------------------------------------------------------------------
  // Recursion without end
  // ---------------------------------------------------------------------

  function NegatesReference(): Keywords {
    NoKeywords().(notSchema := Some(0))
  }

  /** {"not": {"$ref": "#"}} */
  function NotItself(order: MemberOrder): Schema {
    Schema([RefSchema(Some(1), None), NodeOf(NegatesReference(), order, Some(1))], 1, map[], map[])
  }

  /** A schema that negates a reference to itself hangs both validators on every instance. */
  lemma NotItselfNeverReturns(fuel: nat, order: MemberOrder, instance: Json, stopOnFirstError: bool)
    requires Enumerates(order)
    ensures Compiled(NotItself(order), 1, NegatesReference(), order)
    ensures RunRoot(fuel, NotItself(order), instance, stopOnFirstError).None?
  {
    var s, k := NotItself(order), NegatesReference();
    var loop: map<nat, nat> := map[0 := 1, 1 := 0];
    LeadingBackNeverReturns(fuel, 1, RootFrame(s, instance, stopOnFirstError), State([], None), [k, k], order, loop);
  }

  function NegatesSecondReference(): Keywords {
    NoKeywords().(notSchema := Some(1))
  }

  /** {"not": {"$ref": "#/$defs/b"}, "$defs": {"b": {"$ref": "#"}}} */
  function NotThroughReferences(order: MemberOrder): Schema {
    Schema([RefSchema(Some(2), None), RefSchema(Some(0), None), NodeOf(NegatesSecondReference(), order, Some(2))],
           2, map[], map[])
  }

  /** Nor does it help if the way back takes several references. */
  lemma NotThroughReferencesNeverReturns(fuel: nat, order: MemberOrder, instance: Json, stopOnFirstError: bool)
    requires Enumerates(order)
    ensures Compiled(NotThroughReferences(order), 2, NegatesSecondReference(), order)
    ensures RunRoot(fuel, NotThroughReferences(order), instance, stopOnFirstError).None?
  {
    var s, k := NotThroughReferences(order), NegatesSecondReference();
    var loop: map<nat, nat> := map[0 := 1, 1 := 2, 2 := 0];
    LeadingBackNeverReturns(fuel, 2, RootFrame(s, instance, stopOnFirstError), State([], None), [k, k, k], order, loop);
  }

  function TrueOrReference(): Keywords {
    NoKeywords().(anyOf := [0, 1])
  }

  /** {"anyOf": [true, {"$ref": "#"}]} */
  function TrueOrItself(order: MemberOrder): Schema {
    Schema([BooleanSchema(true), RefSchema(Some(2), None), NodeOf(TrueOrReference(), order, Some(2))], 2, map[], map[])
  }

  lemma ObjectRuns(fuel: nat, n: nat, k: Keywords, order: MemberOrder, selfIndex: Option<nat>, f: Frame, st: State)
    requires n < |f.schema.nodes| && f.schema.nodes[n] == NodeOf(k, order, selfIndex) && !k.NeedsTracker()
    ensures RunNode(fuel + 1, n, f, st) == RunActions(fuel, Plan(k, order, f.instance), PushResource(f, selfIndex), st)
  {
  }

  /** A plan of which only one action does something. */
  lemma OneActionRuns(fuel: nat, before: seq<Action>, act: Action, after: seq<Action>, f: Frame, st: State)
    requires AllIdle(before) && AllIdle(after)
    ensures RunActions(fuel, before + [act] + after, f, st) == RunAction(fuel, act, f, st)
  {
    RunActionsConcat(fuel, before + [act], after, f, st);
    RunActionsConcat(fuel, before, [act], f, st);
    IdleRuns(fuel, before, f, st);
    Singly(fuel, act, f, st);
    if RunAction(fuel, act, f, st).Some? {
      IdleRuns(fuel, after, f, RunAction(fuel, act, f, st).value);
    }
  }

  lemma OnePhaseRuns(fuel: nat, before: seq<Action>, body: seq<Action>, after: seq<Action>, f: Frame, st: State)
    requires AllIdle(before) && AllIdle(after) && ShouldContinue(f, st)
    ensures RunActions(fuel, before + [Guarded(body)] + after, f, st) == RunActions(fuel, body, f, st)
  {
    OneActionRuns(fuel, before, Guarded(body), after, f, st);
  }

  lemma PlanByPhases(k: Keywords, order: MemberOrder, x: Json)
    ensures var names := NamesOf(order, x);
            var specific, combined := Guarded(TypeSpecificPart(k, x, names)), Guarded(CombinatorPart(k, x));
            var last := Guarded(UnevaluatedPart(k, x, names));
            && Plan(k, order, x) == ValuePart(k, x) + [specific] + [combined, last]
            && Plan(k, order, x) == (ValuePart(k, x) + [specific]) + [combined] + [last]
  {
  }

  lemma NothingLast(k: Keywords, x: Json, names: seq<Text>)
    requires !k.NeedsTracker() && (x.Obj? ==> forall i :: 0 <= i < |names| ==> names[i] in x.members)
    ensures Idle(Guarded(UnevaluatedPart(k, x, names)))
  {
  }

  /** Keywords that ask nothing but through combinators. */
  lemma CombinatorsRun(fuel: nat, k: Keywords, order: MemberOrder, f: Frame, st: State)
    requires ValueMeaning(k, f.instance) && Undemanding(k, f.instance) && !k.NeedsTracker() && ShouldContinue(f, st)
    ensures RunActions(fuel, Plan(k, order, f.instance), f, st) ==
            RunActions(fuel, CombinatorPart(k, f.instance), f, st)
  {
    var x, names := f.instance, NamesOf(order, f.instance);
    var specific, last := Guarded(TypeSpecificPart(k, x, names)), Guarded(UnevaluatedPart(k, x, names));
    ValuesAreIdle(k, x);
    UndemandingIsIdle(k, x, names);
    BothIdle(ValuePart(k, x), [specific]);
    NothingLast(k, x, names);
    PlanByPhases(k, order, x);
    OnePhaseRuns(fuel, ValuePart(k, x) + [specific], CombinatorPart(k, x), [last], f, st);
  }

  lemma CombinatorNodeRuns(fuel: nat, n: nat, k: Keywords, order: MemberOrder, selfIndex: Option<nat>, f: Frame,
                           st: State)
    requires n < |f.schema.nodes| && f.schema.nodes[n] == NodeOf(k, order, selfIndex)
    requires ValueMeaning(k, f.instance) && Undemanding(k, f.instance) && !k.NeedsTracker() && ShouldContinue(f, st)
    ensures RunNode(fuel + 1, n, f, st) ==
            RunActions(fuel, CombinatorPart(k, f.instance), PushResource(f, selfIndex), st)
  {
    var g := PushResource(f, selfIndex);
    ObjectRuns(fuel, n, k, order, selfIndex, f, st);
    CombinatorsRun(fuel, k, order, g, st);
    assert g.instance == f.instance;
  }

  /** Keywords that ask nothing but through those for the type of the instance. */
  lemma TypeSpecificRuns(fuel: nat, k: Keywords, order: MemberOrder, f: Frame, st: State)
    requires ValueMeaning(k, f.instance) && CombinatorPart(k, f.instance) == [] && !k.NeedsTracker() &&
             ShouldContinue(f, st)
    ensures RunActions(fuel, Plan(k, order, f.instance), f, st) ==
            RunActions(fuel, TypeSpecificPart(k, f.instance, NamesOf(order, f.instance)), f, st)
  {
    var x, names := f.instance, NamesOf(order, f.instance);
    var combined, last := Guarded(CombinatorPart(k, x)), Guarded(UnevaluatedPart(k, x, names));
    ValuesAreIdle(k, x);
    NothingLast(k, x, names);
    assert Idle(combined);
    PlanByPhases(k, order, x);
    OnePhaseRuns(fuel, ValuePart(k, x), TypeSpecificPart(k, x, names), [combined, last], f, st);
  }

  lemma TrueMatchesFirst(order: MemberOrder, f: Frame, st: State)
    requires f.schema == TrueOrItself(order) && st.tracker.None?
    ensures RunAction(1, AnyOf([0, 1]), f, st) == Some(st)
  {
    var act := AnyOf([0, 1]);
    var probes := ProbesOf(act, f.instance, false);
    assert RunNode(1, 0, ProbeFrame(f, probes[0]), ProbeState(probes[0])) == Some(State([], None));
    assert [] + [Hit(0, {})] == [Hit(0, {})];
    assert RunProbes(1, f, probes, 1, Some(1), [Hit(0, {})]) == Some([Hit(0, {})]);
    assert RunProbes(1, f, probes, 0, Some(1), []) == Some([Hit(0, {})]);
  }

  lemma AlternativesOnly(x: Json)
    ensures ValueMeaning(TrueOrReference(), x) && Undemanding(TrueOrReference(), x)
    ensures CombinatorPart(TrueOrReference(), x) == [AnyOf([0, 1])]
  {
  }

  /** A cycle through a tried subschema does no harm where an earlier alternative always matches first. */
  lemma EarlierAlternativeReturns(order: MemberOrder, instance: Json, stopOnFirstError: bool)
    requires Enumerates(order)
    ensures Compiled(TrueOrItself(order), 2, TrueOrReference(), order)
    ensures RunRoot(2, TrueOrItself(order), instance, stopOnFirstError) == Some(State([], None))
  {
    var s, k, act := TrueOrItself(order), TrueOrReference(), AnyOf([0, 1]);
    var f, st := RootFrame(s, instance, stopOnFirstError), State([], None);
    TrueMatchesFirst(order, f, st);
    AlternativesOnly(instance);
    CombinatorNodeRuns(1, 2, k, order, Some(2), f, st);
    Singly(1, act, f, st);
    assert PushResource(f, Some(2)) == f;
  }

  // ---------------------------------------------------------------------
  // A reported cycle that is none
  // ---------------------------------------------------------------------

  function NamesByReference(): Keywords {
    NoKeywords().(propertyNames := Some(0))
  }

  /** {"$ref": "#/$defs/x", "$defs": {"x": {"propertyNames": {"$ref": "#/$defs/x"}}}} */
  function NamesLikeTheObject(order: MemberOrder): Schema {
    Schema([RefSchema(Some(1), None), NodeOf(NamesByReference(), order, Some(1)), RefSchema(Some(1), None)],
           2, map[], map[])
  }

  /** What the keywords do on an object with one member. */
  lemma OneNamePart(x: Json, name: Text, value: Json)
    requires x == Obj(map[name := value])
    ensures ObjectPart(NamesByReference(), x, [name]) ==
            Within(1, None, None) + [Guarded([Visit(0, Str(name), [], false)])]
            + [Guarded(MemberPart(NamesByReference(), name, value))]
  {
    var k, visit := NamesByReference(), Visit(0, Str(name), [], false);
    var member := Guarded(MemberPart(k, name, value));
    assert NamesPart(k, [name]) == [Guarded([visit])] && MembersPart(k, x.members, [name]) == [member];
    assert RequiredPart([], x.members) == [] && DependentRequiredPart([], x.members) + DependentPart(k, x) == [];
  }

  /** They come down to a visit of its name. */
  lemma NameIsVisited(fuel: nat, order: MemberOrder, name: Text, value: Json, f: Frame, st: State)
    requires Enumerates(order) && f.instance == Obj(map[name := value]) && ShouldContinue(f, st)
    ensures RunActions(fuel, Plan(NamesByReference(), order, f.instance), f, st) ==
            RunAction(fuel, Visit(0, Str(name), [], false), f, st)
  {
    var k, x, visit := NamesByReference(), f.instance, Visit(0, Str(name), [], false);
    OnlyName(order(x.members), name, value);
    TypeSpecificRuns(fuel, k, order, f, st);
    OneNamePart(x, name, value);
    MemberIsIdle(k, name, value);
    OnePhaseRuns(fuel, Within(1, None, None), [visit], [Guarded(MemberPart(k, name, value))], f, st);
    Singly(fuel, visit, f, st);
  }

  lemma NameHolds(fuel: nat, order: MemberOrder, name: Text, f: Frame, st: State)
    requires f.instance == Str(name)
    ensures RunActions(fuel, Plan(NamesByReference(), order, f.instance), f, st) == Some(st)
  {
    ValuesAreIdle(NamesByReference(), f.instance);
    IdleRuns(fuel, Plan(NamesByReference(), order, f.instance), f, st);
  }

  /** The reference at the root, followed to the object; `guarded` or not. */
  lemma AtTheObject(fuel: nat, order: MemberOrder, f: Frame, x: Json)
    requires f.schema == NamesLikeTheObject(order) && f.instance == x && f.at == [] && f.active == []
    ensures RunNode(fuel + 2, 2, f, State([], None)) ==
            RunActions(fuel, Plan(NamesByReference(), order, x), f.(active := [(1, [])]), State([], None))
  {
    var s, st := f.schema, State([], None);
    var g := f.(active := [(1, [])]);
    assert PushResource(f, None) == f && PushResource(f, Some(1)) == f && PushResource(g, Some(1)) == g;
    assert [] + [(1, f.at)] == [(1, [])];
    assert RunNode(fuel + 2, 2, f, st) == RunTarget(fuel + 1, 1, f, st);
    assert RunTarget(fuel + 1, 1, f, st) == RunNode(fuel + 1, 1, g, st);
  }

  lemma SecondExpansion(order: MemberOrder, name: Text, g: Frame, st: State)
    requires g.schema == NamesLikeTheObject(order) && g.at == [] && g.active == [(1, [])]
    ensures RunAction(2, Visit(0, Str(name), [], false), g, st) ==
            Some(if g.guarded then st.AddError([], RefCycleDetected) else st)
  {
    var h := g.(instance := Str(name), at := g.at + []);
    assert h.at == [] && PushResource(h, None) == h && (1, h.at) in h.active;
    var next := h.(active := h.active + [(1, h.at)]);
    assert PushResource(h, Some(1)).(active := h.active + [(1, h.at)]) == next && PushResource(next, Some(1)) == next;
    NameHolds(0, order, name, next, st);
    assert RunNode(1, 1, next, st) == Some(st);
    assert RunNode(2, 0, h, st) == RunTarget(1, 1, h, st);
  }

  /**
   * The guard compares instance paths, and a member name is visited at the
   * path of its object. So every object with one member is rejected with a
   * reference cycle, although the recursion ends at the name, a string of
   * which the referenced schema asks nothing.
   */
  lemma MemberNameLooksLikeCycle(order: MemberOrder, name: Text, value: Json, stopOnFirstError: bool)
    requires Enumerates(order)
    ensures Compiled(NamesLikeTheObject(order), 1, NamesByReference(), order)
    ensures var s, x := NamesLikeTheObject(order), Obj(map[name := value]);
            && RunRoot(4, s, x, stopOnFirstError) == Some(State([ValidationError([], RefCycleDetected)], None))
            && RunUnguarded(4, s, x, stopOnFirstError) == Some(State([], None))
  {
    var s, x, st := NamesLikeTheObject(order), Obj(map[name := value]), State([], None);
    var f := RootFrame(s, x, stopOnFirstError);
    var e := ValidationError([], RefCycleDetected);
    assert [] + [e] == [e];
    forall g | g == f || g == Unguarded(f)
      ensures RunNode(4, 2, g, st) == Some(if g.guarded then State([e], None) else st)
    {
      var h := g.(active := [(1, [])]);
      AtTheObject(2, order, g, x);
      NameIsVisited(2, order, name, value, h, st);
      SecondExpansion(order, name, h, st);
    }
  }

  // ---------------------------------------------------------------------
  // A dynamic reference that does not see its scope
  // ---------------------------------------------------------------------

  const N: Text := [0x6E]

  /** {"$dynamicAnchor": "n", "not": true} */
  function Impossible(): Keywords {
    NoKeywords().(notSchema := Some(0))
  }

  function InAnyOf(): Keywords {
    NoKeywords().(anyOf := [3])
  }

  function InAllOf(): Keywords {
    NoKeywords().(allOf := [3])
  }

  /**
   * {"$id": "outer", "anyOf": [{"$dynamicRef": "inner#n"}],
   *  "$defs": {"o": {"$dynamicAnchor": "n", "not": true}, "i": {"$id": "inner", "$dynamicAnchor": "n"}}}
   * and the same with allOf. The anchor is node 1 in the resource of the root,
   * and node 2 in its own, where the reference (node 3) has its static target.
   */
  function DynamicUnder(k: Keywords, order: MemberOrder): Schema {
    Schema([BooleanSchema(true), NodeOf(Impossible(), order, Some(1)), NodeOf(NoKeywords(), order, Some(2)),
            DynamicRefSchema(Some(2), N), NodeOf(k, order, Some(4))],
           4, map[4 := map[N := 1], 2 := map[N := 2]], map[1 := N, 2 := N])
  }

  /** What compilation guarantees of the anchors: the resources and the nodes tell the same. */
  predicate AnchorsFiled(s: Schema) {
    && (forall r, a :: r in s.resourceAnchors && a in s.resourceAnchors[r] ==>
          s.resourceAnchors[r][a] in s.anchorNames && s.anchorNames[s.resourceAnchors[r][a]] == a)
    && (forall n :: n in s.anchorNames ==>
          exists r :: r in s.resourceAnchors && s.anchorNames[n] in s.resourceAnchors[r]
                      && s.resourceAnchors[r][s.anchorNames[n]] == n)
  }

  lemma DynamicIsCompiled(k: Keywords, order: MemberOrder)
    requires Enumerates(order) && (k == InAnyOf() || k == InAllOf())
    ensures var s := DynamicUnder(k, order);
            && Compiled(s, 1, Impossible(), order) && Compiled(s, 2, NoKeywords(), order) && Compiled(s, 4, k, order)
            && AnchorsFiled(s)
  {
    var s := DynamicUnder(k, order);
    assert s.resourceAnchors[4][N] == 1 && s.resourceAnchors[2][N] == 2;
  }

  lemma OnlyNot(x: Json)
    ensures ValueMeaning(Impossible(), x) && Undemanding(Impossible(), x)
    ensures CombinatorPart(Impossible(), x) == [Not(0)]
  {
  }

  /** Not of a subschema that returns valid. */
  lemma NotFails(fuel: nat, child: nat, f: Frame, st: State)
    requires var p := Probe(child, f.instance, [], false);
             RunNode(fuel, child, ProbeFrame(f, p), ProbeState(p)) == Some(State([], None))
    ensures RunActions(fuel, [Not(child)], f, st) == Some(st.AddError(f.at, KeywordFailed))
  {
    var act, p := Not(child), Probe(child, f.instance, [], false);
    assert ProbesOf(act, f.instance, st.tracker.Some?) == [p];
    assert [] + [Hit(0, {})] == [Hit(0, {})];
    assert RunProbes(fuel, f, [p], 1, None, [Hit(0, {})]) == Some([Hit(0, {})]);
    assert RunProbes(fuel, f, [p], 0, None, []) == Some([Hit(0, {})]);
    Singly(fuel, act, f, st);
  }

  lemma ImpossibleFails(fuel: nat, k: Keywords, order: MemberOrder, f: Frame, st: State)
    requires f.schema == DynamicUnder(k, order) && ShouldContinue(f, st)
    ensures RunNode(fuel + 2, 1, f, st) == Some(st.AddError(f.at, KeywordFailed))
  {
    var g := PushResource(f, Some(1));
    assert g == f;
    OnlyNot(f.instance);
    CombinatorNodeRuns(fuel + 1, 1, Impossible(), order, Some(1), f, st);
    assert f.schema.nodes[0] == BooleanSchema(true);
    NotFails(fuel + 1, 0, f, st);
  }

  lemma NoKeywordsHold(fuel: nat, k: Keywords, order: MemberOrder, f: Frame, st: State)
    requires f.schema == DynamicUnder(k, order) && ShouldContinue(f, st)
    ensures RunNode(fuel + 1, 2, f, st) == Some(st)
  {
    CombinatorNodeRuns(fuel, 2, NoKeywords(), order, Some(2), f, st);
    assert CombinatorPart(NoKeywords(), f.instance) == [];
  }

  /** The reference, by whether the resource of the root is in scope. */
  lemma DynamicReferenceRuns(fuel: nat, k: Keywords, order: MemberOrder, f: Frame)
    requires f.schema == DynamicUnder(k, order) && f.active == []
    requires f.scope == [] || f.scope[0] == map[N := 1]
    ensures RunNode(fuel + 3, 3, f, State([], None)) ==
            Some(if f.scope == [] then State([], None) else State([ValidationError(f.at, KeywordFailed)], None))
  {
    var st, target := State([], None), if f.scope == [] then 2 else 1;
    var g := PushResource(f, Some(target)).(active := f.active + [(target, f.at)]);
    ReferenceIsExpanded(fuel + 1, k, order, f);
    if target == 2 {
      NoKeywordsHold(fuel + 1, k, order, g, st);
    } else {
      ImpossibleFails(fuel, k, order, g, st);
      assert [] + [ValidationError(f.at, KeywordFailed)] == [ValidationError(f.at, KeywordFailed)];
    }
  }

  lemma TargetByScope(k: Keywords, order: MemberOrder, f: Frame)
    requires f.schema == DynamicUnder(k, order)
    requires f.scope == [] || f.scope[0] == map[N := 1]
    ensures DynamicTarget(f, 2, N) == if f.scope == [] then 2 else 1
  {
  }

  lemma ReferenceIsExpanded(fuel: nat, k: Keywords, order: MemberOrder, f: Frame)
    requires f.schema == DynamicUnder(k, order) && f.active == []
    requires f.scope == [] || f.scope[0] == map[N := 1]
    ensures var st, target := State([], None), if f.scope == [] then 2 else 1;
            RunNode(fuel + 2, 3, f, st) ==
            RunNode(fuel + 1, target, PushResource(f, Some(target)).(active := f.active + [(target, f.at)]), st)
  {
    var st, target := State([], None), if f.scope == [] then 2 else 1;
    TargetByScope(k, order, f);
    assert f.schema.nodes[3] == DynamicRefSchema(Some(2), N);
    assert RunNode(fuel + 2, 3, f, st) == RunTarget(fuel + 1, target, f, st);
  }

  /**
   * A subschema tried in a context of its own starts without the dynamic
   * scope around it. An anyOf of one dynamic reference accepts every instance,
   * where an allOf of it rejects them all, as would the anyOf if it inherited
   * the scope.
   */
  lemma DynamicScopeIsLost(fuel: nat, order: MemberOrder, instance: Json, stopOnFirstError: bool)
    requires Enumerates(order)
    ensures AnchorsFiled(DynamicUnder(InAnyOf(), order)) &&
            Compiled(DynamicUnder(InAnyOf(), order), 4, InAnyOf(), order)
    ensures AnchorsFiled(DynamicUnder(InAllOf(), order)) &&
            Compiled(DynamicUnder(InAllOf(), order), 4, InAllOf(), order)
    ensures RunRoot(fuel + 4, DynamicUnder(InAnyOf(), order), instance, stopOnFirstError) == Some(State([], None))
    ensures RunInheriting(fuel + 4, DynamicUnder(InAnyOf(), order), instance, stopOnFirstError) ==
            Some(State([ValidationError([], KeywordFailed)], None))
    ensures RunRoot(fuel + 4, DynamicUnder(InAllOf(), order), instance, stopOnFirstError) ==
            Some(State([ValidationError([], KeywordFailed)], None))
  {
    DynamicIsCompiled(InAnyOf(), order);
    DynamicIsCompiled(InAllOf(), order);
    var any := RootFrame(DynamicUnder(InAnyOf(), order), instance, stopOnFirstError);
    var all := RootFrame(DynamicUnder(InAllOf(), order), instance, stopOnFirstError);
    RootScope(InAnyOf(), order, instance, stopOnFirstError);
    RootScope(InAllOf(), order, instance, stopOnFirstError);
    UnderAnyOf(fuel, order, any);
    UnderAnyOf(fuel, order, any.(inherits := true));
    UnderAllOf(fuel, order, all);
  }

  lemma RootScope(k: Keywords, order: MemberOrder, instance: Json, stopOnFirstError: bool)
    ensures var root := RootFrame(DynamicUnder(k, order), instance, stopOnFirstError);
            root.scope == [map[N := 1]] && root.at == [] && root.active == [] && !root.inherits
  {
  }

  lemma SoleAlternative(fuel: nat, child: nat, f: Frame, st: State)
    requires st.tracker.None?
    requires var p := Probe(child, f.instance, [], false);
             RunNode(fuel, child, ProbeFrame(f, p), ProbeState(p)) == Some(State([], None))
    ensures RunActions(fuel, [AnyOf([child])], f, st) == Some(st)
  {
    var act, p := AnyOf([child]), Probe(child, f.instance, [], false);
    assert ProbesOf(act, f.instance, false) == [p];
    assert [] + [Hit(0, {})] == [Hit(0, {})];
    assert RunProbes(fuel, f, [p], 1, Some(1), [Hit(0, {})]) == Some([Hit(0, {})]);
    assert RunProbes(fuel, f, [p], 0, Some(1), []) == Some([Hit(0, {})]);
    Singly(fuel, act, f, st);
  }

  lemma SoleVisit(fuel: nat, child: nat, f: Frame, st: State)
    requires ShouldContinue(f, st)
    ensures RunActions(fuel, [Guarded([Visit(child, f.instance, [], false)])], f, st) == RunNode(fuel, child, f, st)
  {
    var visit := Visit(child, f.instance, [], false);
    assert f.(instance := f.instance, at := f.at + []) == f;
    Singly(fuel, visit, f, st);
    Singly(fuel, Guarded([visit]), f, st);
  }

  lemma SoleAlternativeFails(fuel: nat, child: nat, f: Frame, st: State)
    requires st.tracker.None?
    requires var p := Probe(child, f.instance, [], false);
             var out := RunNode(fuel, child, ProbeFrame(f, p), ProbeState(p));
             out.Some? && !out.value.IsValid()
    ensures RunActions(fuel, [AnyOf([child])], f, st) == Some(st.AddError(f.at, KeywordFailed))
  {
    var act, p := AnyOf([child]), Probe(child, f.instance, [], false);
    assert ProbesOf(act, f.instance, false) == [p];
    assert RunProbes(fuel, f, [p], 1, Some(1), []) == Some([]);
    assert RunProbes(fuel, f, [p], 0, Some(1), []) == Some([]);
    Singly(fuel, act, f, st);
  }

  lemma UnderAnyOf(fuel: nat, order: MemberOrder, root: Frame)
    requires root.schema == DynamicUnder(InAnyOf(), order) && root.scope == [map[N := 1]]
    ensures RunNode(fuel + 4, 4, root, State([], None)) ==
            Some(if root.inherits then State([ValidationError(root.at, KeywordFailed)], None) else State([], None))
  {
    var k, st, f, p := InAnyOf(), State([], None), PushResource(root, Some(4)), Probe(3, root.instance, [], false);
    assert f == root.(scope := root.scope + [map[N := 1]]);
    DynamicReferenceRuns(fuel, k, order, ProbeFrame(f, p));
    OnlyAnyOf(root.instance);
    CombinatorNodeRuns(fuel + 3, 4, k, order, Some(4), root, st);
    if root.inherits {
      SoleAlternativeFails(fuel + 3, 3, f, st);
      assert [] + [ValidationError(root.at, KeywordFailed)] == [ValidationError(root.at, KeywordFailed)];
    } else {
      SoleAlternative(fuel + 3, 3, f, st);
    }
  }

  lemma OnlyAnyOf(x: Json)
    ensures ValueMeaning(InAnyOf(), x) && Undemanding(InAnyOf(), x) && CombinatorPart(InAnyOf(), x) == [AnyOf([3])]
  {
  }

  lemma OnlyAllOf(x: Json)
    ensures ValueMeaning(InAllOf(), x) && Undemanding(InAllOf(), x)
    ensures CombinatorPart(InAllOf(), x) == [Guarded([Visit(3, x, [], false)])]
  {
  }

  lemma UnderAllOf(fuel: nat, order: MemberOrder, root: Frame)
    requires root.schema == DynamicUnder(InAllOf(), order) && root.scope == [map[N := 1]] && root.active == []
    ensures RunNode(fuel + 4, 4, root, State([], None)) == Some(State([ValidationError(root.at, KeywordFailed)], None))
  {
    var k, st, f := InAllOf(), State([], None), PushResource(root, Some(4));
    assert f == root.(scope := root.scope + [map[N := 1]]);
    DynamicReferenceRuns(fuel, k, order, f);
    SoleVisit(fuel + 3, 3, f, st);
    OnlyAllOf(root.instance);
    CombinatorNodeRuns(fuel + 3, 4, k, order, Some(4), root, st);
  }

  // ---------------------------------------------------------------------
  // A leaked evaluation
  // ---------------------------------------------------------------------

  const A: Text := [0x61]
  const B: Text := [0x62]

  /** {"type": "object", "properties": {"b": true}} */
  function ObjectWithB(): Keywords {
    NoKeywords().(typeFails := (x: Json) => !x.Obj?, properties := map[B := 0])
  }

  function OtherwiseObjectsWithB(): Keywords {
    NoKeywords().(unevaluatedProperties := Some(1))
  }

  /** {"unevaluatedProperties": {"type": "object", "properties": {"b": true}}} */
  function Leaky(order: MemberOrder): Schema {
    Schema([BooleanSchema(true), NodeOf(ObjectWithB(), order, None), NodeOf(OtherwiseObjectsWithB(), order, None)],
           2, map[], map[])
  }

  const LEAKY_RANK: seq<nat> := [0, 1, 2]
  const INNER: Json := Obj(map[B := Null])
  const OUTER: Json := Obj(map[A := INNER, B := Null])

  lemma LeakyDescends(order: MemberOrder)
    requires Enumerates(order)
    ensures Descending(Leaky(order), LEAKY_RANK, [NoKeywords(), ObjectWithB(), OtherwiseObjectsWithB()], order)
  {
  }

  lemma NullIsRefused(leak: bool, order: MemberOrder)
    requires Enumerates(order) && Acyclic(Leaky(order), LEAKY_RANK)
    ensures !Satisfies(leak, Leaky(order), LEAKY_RANK, 1, Null)
  {
    var names, front, back := ReadingByKeywords(leak, Leaky(order), LEAKY_RANK, 1, Null, ObjectWithB(), order);
  }

  lemma InnerBeside(s: Schema, rank: seq<nat>)
    requires Sat(true, s, rank, 0, Null)
    ensures MeaningBeside(true, s, rank, ObjectWithB(), INNER)
    ensures EvaluatedBeside(true, s, rank, ObjectWithB(), INNER, Property(B))
  {
  }

  lemma InnerIsAccepted(order: MemberOrder)
    requires Enumerates(order) && Acyclic(Leaky(order), LEAKY_RANK)
    ensures Satisfies(true, Leaky(order), LEAKY_RANK, 1, INNER)
    ensures EvaluatedAt(true, Leaky(order), LEAKY_RANK, 1, INNER, Property(B))
  {
    var s, k := Leaky(order), ObjectWithB();
    var names, front, back := ReadingByKeywords(true, s, LEAKY_RANK, 1, INNER, k, order);
    assert Sat(true, s, LEAKY_RANK, 0, Null);
    InnerBeside(s, LEAKY_RANK);
  }

  lemma NothingBeside(leak: bool, s: Schema, rank: seq<nat>)
    ensures MeaningBeside(leak, s, rank, OtherwiseObjectsWithB(), OUTER)
    ensures forall p :: !EvaluatedBeside(leak, s, rank, OtherwiseObjectsWithB(), OUTER, p)
  {
  }

  /** The specification's reading: "b" is neither evaluated nor an object. */
  lemma OuterIsRefused(order: MemberOrder)
    requires Enumerates(order) && Acyclic(Leaky(order), LEAKY_RANK)
    ensures !Satisfies(false, Leaky(order), LEAKY_RANK, 2, OUTER)
  {
    var s, k := Leaky(order), OtherwiseObjectsWithB();
    SatisfiesIsMeaning(s, LEAKY_RANK, 2, OUTER, k, order);
    NullIsRefused(false, order);
    NothingBeside(false, s, LEAKY_RANK);
    assert UnevaluatedMeaning(s, LEAKY_RANK, k, OUTER) ==> Sat(false, s, LEAKY_RANK, 1, OUTER.members[B]);
  }

  /** Two places of which the keywords evaluate none: the second may be evaluated by the visit at the first. */
  lemma TwoPlaces(s: Schema, rank: seq<nat>, n: nat, x: Json, front: seq<Action>, first: Action, second: Action)
    requires ReadyActions(s, rank, n, x, front) && ReadyBack(s, rank, n, x, [first, second])
    requires forall p :: !EvaluatedBy(true, s, rank, n, x, front, p)
    requires [first, second][0] == first && [first, second][1] == second && first.place != second.place
    ensures SatisfiesBack(true, s, rank, n, x, front, [first, second], 0) <==>
            && Satisfies(true, s, rank, first.child, first.instance)
            && (|| Satisfies(true, s, rank, second.child, second.instance)
                || EvaluatedAt(true, s, rank, first.child, first.instance, second.place))
  {
    var back := [first, second];
    SatisfiesBackStep(true, s, rank, n, x, front, back, 0);
    SatisfiesBackStep(true, s, rank, n, x, front, back, 1);
    assert SatisfiesBack(true, s, rank, n, x, front, back, 2);
    assert forall p :: !Seen(true, s, rank, n, x, front, back, 0, p);
    assert back[1 - 1] == first;
    assert Seen(true, s, rank, n, x, front, back, 1, second.place) <==>
           EvaluatedAt(true, s, rank, first.child, first.instance, second.place);
  }

  lemma ThreeDiffer(names: seq<Text>, m: map<Text, Json>)
    requires Lists(names, m) && |names| > 2
    ensures names[0] != names[1] && names[0] != names[2] && names[1] != names[2]
  {
  }

  lemma TwoNames(names: seq<Text>)
    requires Lists(names, OUTER.members)
    ensures names == [A, B] || names == [B, A]
  {
    var m := OUTER.members;
    assert A in names && B in names && A != B;
    assert forall i :: 0 <= i < |names| ==> names[i] == A || names[i] == B;
    if |names| > 2 {
      ThreeDiffer(names, m);
      assert false;
    }
  }

  lemma OuterBack(names: seq<Text>)
    requires Lists(names, OUTER.members)
    ensures var a, b := Unevaluated(Property(A), 1, INNER), Unevaluated(Property(B), 1, Null);
            UnevaluatedPart(OtherwiseObjectsWithB(), OUTER, names) == if names == [A, B] then [a, b] else [b, a]
  {
    TwoNames(names);
  }

  /** The validator's reading, by the order in which it looks at the two members. */
  lemma OuterByOrder(order: MemberOrder)
    requires Enumerates(order) && Acyclic(Leaky(order), LEAKY_RANK)
    ensures Satisfies(true, Leaky(order), LEAKY_RANK, 2, OUTER) <==> order(OUTER.members) == [A, B]
  {
    var s, k, rank := Leaky(order), OtherwiseObjectsWithB(), LEAKY_RANK;
    var names, front, back := ReadingByKeywords(true, s, rank, 2, OUTER, k, order);
    NothingBeside(true, s, rank);
    OuterBack(names);
    InnerIsAccepted(order);
    NullIsRefused(true, order);
    TwoPlaces(s, rank, 2, OUTER, front, back[0], back[1]);
    assert back == [back[0], back[1]];
  }

  /**
   * In {"a": {"b": null}, "b": null} the member "b" is not evaluated by any
   * keyword and does not satisfy unevaluatedProperties. The validator accepts
   * the instance if it comes to "a" first: looking at "a" left a "b" in the
   * tracker. With "b" first it rejects it, so the verdict depends on the order.
   */
  lemma LeakedEvaluation(order: MemberOrder)
    requires Enumerates(order)
    ensures Descending(Leaky(order), LEAKY_RANK, [NoKeywords(), ObjectWithB(), OtherwiseObjectsWithB()], order)
    ensures !Sat(false, Leaky(order), LEAKY_RANK, 2, OUTER)
    ensures Collected(Leaky(order), OUTER, []) <==> order(OUTER.members) == [A, B]
  {
    LeakyDescends(order);
    DescendingIsAcyclic(Leaky(order), LEAKY_RANK, [NoKeywords(), ObjectWithB(), OtherwiseObjectsWithB()], order);
    OuterIsRefused(order);
    OuterByOrder(order);
    ValidatorDecides(Leaky(order), LEAKY_RANK, OUTER);
  }
}
