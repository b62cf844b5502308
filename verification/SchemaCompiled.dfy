/** Schemas whose nodes are compiled keywords: when validation of them returns, and what it decides. */
module SchemaCompiled {
  import opened JsonValue
  import opened SchemaGraph
  import opened SchemaTermination
  import opened SchemaEntry
  import opened SchemaReading
  import opened SchemaMeaning
  import opened SchemaLeak
  import opened SchemaGuard
  import opened SchemaBound
  import opened SchemaKeywords
  import opened SchemaKeywordLaws

  // ---------------------------------------------------------------------
  // What compilation guarantees of the graph
  // ---------------------------------------------------------------------

  /** Subschemas on the same instance do not rise above `n`, those tried in contexts of their own lie below. */
  predicate Fits(strict: bool, level: seq<nat>, n: nat, k: Keywords)
    requires n < |level| && ChildrenFirst(k, n)
  {
    && (forall i :: 0 <= i < |k.allOf| ==> Descends(strict, level, n, k.allOf[i]))
    && (forall i :: 0 <= i < |k.dependentSchemas| ==> Descends(strict, level, n, k.dependentSchemas[i].1))
    && (k.thenSchema.Some? ==> Descends(strict, level, n, k.thenSchema.value))
    && (k.elseSchema.Some? ==> Descends(strict, level, n, k.elseSchema.value))
    && (forall i :: 0 <= i < |k.anyOf| ==> Descends(true, level, n, k.anyOf[i]))
    && (forall i :: 0 <= i < |k.oneOf| ==> Descends(true, level, n, k.oneOf[i]))
    && (k.notSchema.Some? ==> Descends(true, level, n, k.notSchema.value))
    && (k.ifSchema.Some? ==> Descends(true, level, n, k.ifSchema.value))
    && (strict && k.propertyNames.Some? ==> Descends(true, level, n, k.propertyNames.value))
  }

  predicate Descends(strict: bool, level: seq<nat>, n: nat, child: nat)
    requires child < n < |level|
  {
    if strict then level[child] < level[n] else level[child] <= level[n]
  }

  /** What can be asked of the actions of a plan: see `Stratified`, `Acyclic` and `Regular`, `Steady`, `Grounded`. */
  datatype Aim = Levels | Ranks | Steadiness(closed: set<nat>) | Ground

  predicate FitsAim(aim: Aim, level: seq<nat>, n: nat, k: Keywords)
    requires n < |level| && ChildrenFirst(k, n)
  {
    match aim
    case Levels => Fits(false, level, n, k)
    case Ranks => Fits(true, level, n, k)
    case Steadiness(closed) => k.propertyNames.Some? ==> k.propertyNames.value in closed
    case Ground => true
  }

  ghost predicate Safe(aim: Aim, s: Schema, level: seq<nat>, n: nat, x: Json, act: Action)
    requires |level| == |s.nodes| && n < |level|
  {
    match aim
    case Levels => StratifiedAction(s, level, n, x, act)
    case Ranks => StratifiedAction(s, level, n, x, act) && AcyclicAction(level, n, x, act) && RegularAction(x, act)
    case Steadiness(closed) => SteadyAction(closed, x, act) && !LooksAtTracker(act)
    case Ground => GroundedAction(n, x, act)
  }

  ghost predicate AllSafe(aim: Aim, s: Schema, level: seq<nat>, n: nat, x: Json, acts: seq<Action>)
    requires |level| == |s.nodes| && n < |level|
  {
    forall i :: 0 <= i < |acts| ==> Safe(aim, s, level, n, x, acts[i])
  }

  lemma GuardedIsSafe(aim: Aim, s: Schema, level: seq<nat>, n: nat, x: Json, body: seq<Action>)
    requires |level| == |s.nodes| && n < |level| && AllSafe(aim, s, level, n, x, body)
    ensures Safe(aim, s, level, n, x, Guarded(body))
  {
    assert forall i :: 0 <= i < |body| ==> Safe(aim, s, level, n, x, body[i]);
  }

  lemma BothAreSafe(aim: Aim, s: Schema, level: seq<nat>, n: nat, x: Json, a: seq<Action>, b: seq<Action>)
    requires |level| == |s.nodes| && n < |level|
    requires AllSafe(aim, s, level, n, x, a) && AllSafe(aim, s, level, n, x, b)
    ensures AllSafe(aim, s, level, n, x, a + b)
  {
  }

  lemma ElementsAreSafe(aim: Aim, s: Schema, level: seq<nat>, n: nat, x: Json, k: Keywords)
    requires |level| == |s.nodes| && n < |level| && ChildrenFirst(k, n) && x.Arr?
    ensures AllSafe(aim, s, level, n, x, PrefixPart(k, x.items) + ItemsPart(k, x.items))
  {
    var items := x.items;
    PartsAreLower(x);
    forall child: nat, i: nat | child < n && i < |items|
      ensures Safe(aim, s, level, n, x, VisitItem(child, items, i))
    {
      GuardedIsSafe(aim, s, level, n, x, [Visit(child, items[i], [Item(i)], true), Mark({Item(i)})]);
    }
    BothAreSafe(aim, s, level, n, x, PrefixPart(k, items), ItemsPart(k, items));
  }

  lemma UniqueIsSafe(aim: Aim, s: Schema, level: seq<nat>, n: nat, x: Json, k: Keywords, items: seq<Json>)
    requires |level| == |s.nodes| && n < |level|
    ensures AllSafe(aim, s, level, n, x, UniquePart(k, items))
  {
    var unique := UniquePart(k, items);
    forall i | 0 <= i < |unique|
      ensures Safe(aim, s, level, n, x, unique[i])
    {
      GuardedIsSafe(aim, s, level, n, x, [Check(!RepeatedLater(items, i))]);
    }
  }

  lemma ArrayIsSafe(aim: Aim, s: Schema, level: seq<nat>, n: nat, x: Json, k: Keywords)
    requires |level| == |s.nodes| && n < |level| && ChildrenFirst(k, n) && x.Arr?
    ensures AllSafe(aim, s, level, n, x, ArrayPart(k, x.items))
  {
    var size, unique := Within(|x.items|, k.minItems, k.maxItems), UniquePart(k, x.items);
    var elements, contains := PrefixPart(k, x.items) + ItemsPart(k, x.items), ContainsPart(k, x.items);
    PartsAreLower(x);
    UniqueIsSafe(aim, s, level, n, x, k, x.items);
    ElementsAreSafe(aim, s, level, n, x, k);
    BothAreSafe(aim, s, level, n, x, size, unique);
    BothAreSafe(aim, s, level, n, x, elements, contains);
    BothAreSafe(aim, s, level, n, x, size + unique, elements + contains);
  }

  lemma MemberIsSafe(aim: Aim, s: Schema, level: seq<nat>, n: nat, x: Json, k: Keywords, name: Text)
    requires |level| == |s.nodes| && n < |level| && ChildrenFirst(k, n)
    requires x.Obj? && name in x.members
    ensures Safe(aim, s, level, n, x, Guarded(MemberPart(k, name, x.members[name])))
  {
    PartsAreLower(x);
    var value := x.members[name];
    assert AllSafe(aim, s, level, n, x, PatternsPart(k, name, value));
    GuardedIsSafe(aim, s, level, n, x, MemberPart(k, name, value));
  }

  lemma {:induction false} DependentRequiredIsSafe(aim: Aim, s: Schema, level: seq<nat>, n: nat, x: Json,
                                                   required: seq<(Text, seq<Text>)>, m: map<Text, Json>)
    requires |level| == |s.nodes| && n < |level|
    ensures AllSafe(aim, s, level, n, x, DependentRequiredPart(required, m))
  {
    if required != [] {
      DependentRequiredIsSafe(aim, s, level, n, x, required[1..], m);
    }
  }

  lemma MembersAreSafe(aim: Aim, s: Schema, level: seq<nat>, n: nat, x: Json, k: Keywords, names: seq<Text>)
    requires |level| == |s.nodes| && n < |level| && ChildrenFirst(k, n) && FitsAim(aim, level, n, k)
    requires x.Obj? && forall i :: 0 <= i < |names| ==> names[i] in x.members
    ensures AllSafe(aim, s, level, n, x, NamesPart(k, names) + MembersPart(k, x.members, names))
  {
    PartsAreLower(x);
    var walk, members := NamesPart(k, names), MembersPart(k, x.members, names);
    forall i | 0 <= i < |walk|
      ensures Safe(aim, s, level, n, x, walk[i])
    {
      GuardedIsSafe(aim, s, level, n, x, [Visit(k.propertyNames.value, Str(names[i]), [], false)]);
    }
    forall i | 0 <= i < |members|
      ensures Safe(aim, s, level, n, x, members[i])
    {
      MemberIsSafe(aim, s, level, n, x, k, names[i]);
    }
    BothAreSafe(aim, s, level, n, x, walk, members);
  }

  lemma DependentIsSafe(aim: Aim, s: Schema, level: seq<nat>, n: nat, x: Json, k: Keywords)
    requires |level| == |s.nodes| && n < |level| && ChildrenFirst(k, n) && FitsAim(aim, level, n, k) && x.Obj?
    ensures AllSafe(aim, s, level, n, x, DependentPart(k, x))
  {
  }

  lemma ObjectIsSafe(aim: Aim, s: Schema, level: seq<nat>, n: nat, x: Json, k: Keywords, names: seq<Text>)
    requires |level| == |s.nodes| && n < |level| && ChildrenFirst(k, n) && FitsAim(aim, level, n, k)
    requires x.Obj? && forall i :: 0 <= i < |names| ==> names[i] in x.members
    ensures AllSafe(aim, s, level, n, x, ObjectPart(k, x, names))
  {
    var m := x.members;
    var size, required := Within(|m|, k.minProperties, k.maxProperties), RequiredPart(k.required, m);
    var walk := NamesPart(k, names) + MembersPart(k, m, names);
    var requirements, dependent := DependentRequiredPart(k.dependentRequired, m), DependentPart(k, x);
    MembersAreSafe(aim, s, level, n, x, k, names);
    DependentRequiredIsSafe(aim, s, level, n, x, k.dependentRequired, m);
    DependentIsSafe(aim, s, level, n, x, k);
    BothAreSafe(aim, s, level, n, x, requirements, dependent);
    BothAreSafe(aim, s, level, n, x, walk, requirements + dependent);
    BothAreSafe(aim, s, level, n, x, size, required);
    BothAreSafe(aim, s, level, n, x, size + required, walk + (requirements + dependent));
  }

  lemma ChoicesAreSafe(aim: Aim, s: Schema, level: seq<nat>, n: nat, x: Json, k: Keywords)
    requires |level| == |s.nodes| && n < |level| && ChildrenFirst(k, n) && FitsAim(aim, level, n, k)
    ensures AllSafe(aim, s, level, n, x, AnyOfPart(k)) && AllSafe(aim, s, level, n, x, OneOfPart(k))
  {
    if aim.Levels? || aim.Ranks? {
      assert forall i :: 0 <= i < |k.anyOf| ==> Descends(true, level, n, k.anyOf[i]);
      assert forall i :: 0 <= i < |k.oneOf| ==> Descends(true, level, n, k.oneOf[i]);
    }
    assert Safe(aim, s, level, n, x, AnyOf(k.anyOf));
    assert Safe(aim, s, level, n, x, OneOf(k.oneOf));
  }

  lemma NotIsSafe(aim: Aim, s: Schema, level: seq<nat>, n: nat, x: Json, k: Keywords)
    requires |level| == |s.nodes| && n < |level| && ChildrenFirst(k, n) && FitsAim(aim, level, n, k)
    ensures AllSafe(aim, s, level, n, x, NotPart(k))
  {
  }

  lemma IfIsSafe(aim: Aim, s: Schema, level: seq<nat>, n: nat, x: Json, k: Keywords)
    requires |level| == |s.nodes| && n < |level| && ChildrenFirst(k, n) && FitsAim(aim, level, n, k)
    ensures AllSafe(aim, s, level, n, x, IfPart(k))
  {
  }

  lemma AllOfIsSafe(aim: Aim, s: Schema, level: seq<nat>, n: nat, x: Json, k: Keywords)
    requires |level| == |s.nodes| && n < |level| && ChildrenFirst(k, n) && FitsAim(aim, level, n, k)
    ensures AllSafe(aim, s, level, n, x, AllOfPart(k, x))
  {
    var all := AllOfPart(k, x);
    forall i | 0 <= i < |all|
      ensures Safe(aim, s, level, n, x, all[i])
    {
      assert aim.Ranks? ==> Descends(true, level, n, k.allOf[i]);
      assert aim.Levels? ==> Descends(false, level, n, k.allOf[i]);
      GuardedIsSafe(aim, s, level, n, x, [Visit(k.allOf[i], x, [], false)]);
    }
  }

  lemma CombinatorsAreSafe(aim: Aim, s: Schema, level: seq<nat>, n: nat, x: Json, k: Keywords)
    requires |level| == |s.nodes| && n < |level| && ChildrenFirst(k, n) && FitsAim(aim, level, n, k)
    ensures AllSafe(aim, s, level, n, x, CombinatorPart(k, x))
  {
    AllOfIsSafe(aim, s, level, n, x, k);
    ChoicesAreSafe(aim, s, level, n, x, k);
    NotIsSafe(aim, s, level, n, x, k);
    IfIsSafe(aim, s, level, n, x, k);
    BothAreSafe(aim, s, level, n, x, AnyOfPart(k), OneOfPart(k));
    BothAreSafe(aim, s, level, n, x, NotPart(k), IfPart(k));
    BothAreSafe(aim, s, level, n, x, AnyOfPart(k) + OneOfPart(k), NotPart(k) + IfPart(k));
    BothAreSafe(aim, s, level, n, x, AllOfPart(k, x), AnyOfPart(k) + OneOfPart(k) + (NotPart(k) + IfPart(k)));
  }

  lemma ValuesAreSafe(aim: Aim, s: Schema, level: seq<nat>, n: nat, x: Json, k: Keywords)
    requires |level| == |s.nodes| && n < |level|
    ensures AllSafe(aim, s, level, n, x, ValuePart(k, x))
  {
    forall i | 0 <= i < |ValuePart(k, x)|
      ensures Safe(aim, s, level, n, x, ValuePart(k, x)[i])
    {
      GuardedIsSafe(aim, s, level, n, x, ValuePart(k, x)[i].body);
    }
  }

  lemma TypeSpecificIsSafe(aim: Aim, s: Schema, level: seq<nat>, n: nat, x: Json, k: Keywords, names: seq<Text>)
    requires |level| == |s.nodes| && n < |level| && ChildrenFirst(k, n) && FitsAim(aim, level, n, k)
    requires x.Obj? ==> forall i :: 0 <= i < |names| ==> names[i] in x.members
    ensures AllSafe(aim, s, level, n, x, TypeSpecificPart(k, x, names))
  {
    match x
    case Arr(_) => ArrayIsSafe(aim, s, level, n, x, k);
    case Obj(_) => ObjectIsSafe(aim, s, level, n, x, k, names);
    case _ =>
  }

  lemma FrontIsSafe(aim: Aim, s: Schema, level: seq<nat>, n: nat, x: Json, k: Keywords, names: seq<Text>)
    requires |level| == |s.nodes| && n < |level| && ChildrenFirst(k, n) && FitsAim(aim, level, n, k)
    requires x.Obj? ==> Lists(names, x.members)
    ensures AllSafe(aim, s, level, n, x, FrontWith(k, x, names))
  {
    var specific, combined := TypeSpecificPart(k, x, names), CombinatorPart(k, x);
    ValuesAreSafe(aim, s, level, n, x, k);
    TypeSpecificIsSafe(aim, s, level, n, x, k, names);
    CombinatorsAreSafe(aim, s, level, n, x, k);
    GuardedIsSafe(aim, s, level, n, x, specific);
    GuardedIsSafe(aim, s, level, n, x, combined);
    BothAreSafe(aim, s, level, n, x, ValuePart(k, x), [Guarded(specific), Guarded(combined)]);
  }

  lemma UnevaluatedIsSafe(s: Schema, level: seq<nat>, n: nat, x: Json, k: Keywords, names: seq<Text>)
    requires |level| == |s.nodes| && n < |level| && ChildrenFirst(k, n)
    requires x.Obj? ==> Lists(names, x.members)
    ensures StratifiedAction(s, level, n, x, Guarded(UnevaluatedPart(k, x, names)))
    ensures OncePerPlace(UnevaluatedPart(k, x, names))
  {
    PartsAreLower(x);
  }

  lemma UnevaluatedIsRegular(k: Keywords, x: Json, names: seq<Text>)
    requires x.Obj? ==> Lists(names, x.members)
    ensures RegularBack(x, UnevaluatedPart(k, x, names))
  {
    var back := UnevaluatedPart(k, x, names);
    forall p | back != [] && Relevant(x, p)
      ensures HasPlace(back, p)
    {
      PlacesOfBack(k, x, names, p);
    }
  }

  /** The plan is as the termination theorem requires. */
  lemma PlanIsStratified(s: Schema, level: seq<nat>, n: nat, x: Json, k: Keywords, names: seq<Text>)
    requires |level| == |s.nodes| && n < |level| && ChildrenFirst(k, n) && Fits(false, level, n, k)
    requires x.Obj? ==> Lists(names, x.members)
    ensures forall i :: 0 <= i < |PlanWith(k, x, names)| ==> StratifiedAction(s, level, n, x, PlanWith(k, x, names)[i])
  {
    var front, last := FrontWith(k, x, names), Guarded(UnevaluatedPart(k, x, names));
    FrontAndBack(k, x, names);
    FrontIsSafe(Levels, s, level, n, x, k, names);
    UnevaluatedIsSafe(s, level, n, x, k, names);
    assert forall i :: 0 <= i < |front| ==> Safe(Levels, s, level, n, x, front[i]);
    assert PlanWith(k, x, names) == front + [last];
  }

  /** The plan is as the reading requires, and regular. */
  lemma PlanIsRanked(s: Schema, rank: seq<nat>, n: nat, x: Json, k: Keywords, names: seq<Text>)
    requires |rank| == |s.nodes| && n < |rank| && ChildrenFirst(k, n) && Fits(true, rank, n, k)
    requires x.Obj? ==> Lists(names, x.members)
    ensures AcyclicPlan(rank, n, x, PlanWith(k, x, names), k.NeedsTracker())
    ensures RegularPlan(x, PlanWith(k, x, names), k.NeedsTracker())
  {
    var front := FrontWith(k, x, names);
    FrontAndBack(k, x, names);
    FrontIsSafe(Ranks, s, rank, n, x, k, names);
    UnevaluatedIsSafe(s, rank, n, x, k, names);
    UnevaluatedIsRegular(k, x, names);
    assert forall i :: 0 <= i < |front| ==> Safe(Ranks, s, rank, n, x, front[i]);
    assert AcyclicAction(rank, n, x, Guarded([])) && RegularAction(x, Guarded([]));
  }

  /** The plan is as the theorems on the reference guard require, if propertyNames has a closed subschema. */
  lemma PlanIsSteady(closed: set<nat>, s: Schema, n: nat, x: Json, k: Keywords, names: seq<Text>)
    requires n < |s.nodes| && ChildrenFirst(k, n) && (k.propertyNames.Some? ==> k.propertyNames.value in closed)
    requires x.Obj? ==> Lists(names, x.members)
    ensures SteadyActions(closed, x, PlanWith(k, x, names)) && TidyActions(PlanWith(k, x, names), k.NeedsTracker())
  {
    var front, back := FrontWith(k, x, names), UnevaluatedPart(k, x, names);
    var level: seq<nat> := seq(|s.nodes|, _ => 0);
    FrontAndBack(k, x, names);
    FrontIsSafe(Steadiness(closed), s, level, n, x, k, names);
    assert forall i :: 0 <= i < |front| ==> Safe(Steadiness(closed), s, level, n, x, front[i]);
    UnevaluatedIsSteady(closed, k, x, names);
    assert PlanWith(k, x, names) == front + [Guarded(back)];
  }

  /** Trackers are looked at by unevaluated* alone. */
  lemma PlanIsTidy(s: Schema, n: nat, x: Json, k: Keywords, names: seq<Text>)
    requires n < |s.nodes| && ChildrenFirst(k, n)
    requires x.Obj? ==> Lists(names, x.members)
    ensures TidyActions(PlanWith(k, x, names), k.NeedsTracker())
  {
    PlanIsSteady({k.propertyNames.GetOr(0)}, s, n, x, k, names);
  }

  /** The plan is as the theorem on the bound requires. */
  lemma PlanIsGrounded(s: Schema, n: nat, x: Json, k: Keywords, names: seq<Text>)
    requires n < |s.nodes| && ChildrenFirst(k, n)
    requires x.Obj? ==> Lists(names, x.members)
    ensures forall i :: 0 <= i < |PlanWith(k, x, names)| ==> GroundedAction(n, x, PlanWith(k, x, names)[i])
  {
    var front, back := FrontWith(k, x, names), UnevaluatedPart(k, x, names);
    var level: seq<nat> := seq(|s.nodes|, _ => 0);
    FrontAndBack(k, x, names);
    FrontIsSafe(Ground, s, level, n, x, k, names);
    assert forall i :: 0 <= i < |front| ==> Safe(Ground, s, level, n, x, front[i]);
    UnevaluatedIsGrounded(n, k, x, names);
    assert PlanWith(k, x, names) == front + [Guarded(back)];
  }

  lemma UnevaluatedIsGrounded(n: nat, k: Keywords, x: Json, names: seq<Text>)
    requires x.Obj? ==> forall i :: 0 <= i < |names| ==> names[i] in x.members
    ensures GroundedAction(n, x, Guarded(UnevaluatedPart(k, x, names)))
  {
    PartsAreLower(x);
  }

  lemma UnevaluatedIsSteady(closed: set<nat>, k: Keywords, x: Json, names: seq<Text>)
    requires x.Obj? ==> forall i :: 0 <= i < |names| ==> names[i] in x.members
    ensures var last := Guarded(UnevaluatedPart(k, x, names));
            SteadyAction(closed, x, last) && (LooksAtTracker(last) ==> k.NeedsTracker())
  {
    var back := UnevaluatedPart(k, x, names);
    assert forall i :: 0 <= i < |back| ==> back[i].Unevaluated?;
  }

  lemma StrictFits(level: seq<nat>, n: nat, k: Keywords)
    requires n < |level| && ChildrenFirst(k, n) && Fits(true, level, n, k)
    ensures Fits(false, level, n, k)
  {
    forall i | 0 <= i < |k.allOf|
      ensures Descends(false, level, n, k.allOf[i])
    {
      assert Descends(true, level, n, k.allOf[i]);
    }
    forall i | 0 <= i < |k.dependentSchemas|
      ensures Descends(false, level, n, k.dependentSchemas[i].1)
    {
      assert Descends(true, level, n, k.dependentSchemas[i].1);
    }
  }

  /** Compiled schema objects are as the termination and meaning theorems require, for every instance. */
  lemma CompiledFits(strict: bool, s: Schema, level: seq<nat>, n: nat, k: Keywords, order: MemberOrder)
    requires |level| == |s.nodes| && n < |level| && Compiled(s, n, k, order) && Fits(strict, level, n, k)
    ensures StratifiedNode(s, level, n) && (strict ==> AcyclicNode(s, level, n) && RegularNode(s.nodes[n]))
  {
    var plan := s.nodes[n].plan;
    if strict {
      StrictFits(level, n, k);
    }
    forall x: Json
      ensures forall i :: 0 <= i < |plan(x)| ==> StratifiedAction(s, level, n, x, plan(x)[i])
      ensures strict ==>
                AcyclicPlan(level, n, x, plan(x), k.NeedsTracker()) && RegularPlan(x, plan(x), k.NeedsTracker())
    {
      var names := CompiledPlan(s, n, x, k, order);
      PlanIsStratified(s, level, n, x, k, names);
      if strict {
        PlanIsRanked(s, level, n, x, k, names);
      }
    }
  }

  // ---------------------------------------------------------------------
  // The reference guard
  // ---------------------------------------------------------------------

  /** propertyNames visits a member name, a string, at the path of its object. */
  lemma NamesAreUnsteady(closed: set<nat>, k: Keywords, name: Text)
    requires k.propertyNames.Some? && k.propertyNames.value !in closed
    ensures var x := Obj(map[name := Null]);
            !SteadyActions(closed, x, PlanWith(k, x, [name]))
  {
    var x := Obj(map[name := Null]);
    var visit := Visit(k.propertyNames.value, Str(name), [], false);
    var part, walk := ObjectPart(k, x, [name]), NamesPart(k, [name]);
    assert walk == [Guarded([visit])];
    assert part[2 + |k.required|] == walk[0];
    assert !SteadyAction(closed, x, visit) && !SteadyAction(closed, x, Guarded([visit])) by {
      assert [visit][0] == visit;
    }
    assert !SteadyAction(closed, x, Guarded(part));
    assert PlanWith(k, x, [name])[3] == Guarded(part);
  }

  lemma SteadyIffNames(closed: set<nat>, s: Schema, n: nat, k: Keywords, order: MemberOrder)
    requires Compiled(s, n, k, order)
    ensures TidyNode(s.nodes[n])
    ensures SteadyNode(closed, s.nodes[n]) <==> (k.propertyNames.Some? ==> k.propertyNames.value in closed)
  {
    var plan := s.nodes[n].plan;
    forall x: Json
      ensures TidyActions(plan(x), k.NeedsTracker())
      ensures (k.propertyNames.Some? ==> k.propertyNames.value in closed) ==> SteadyActions(closed, x, plan(x))
    {
      var names := CompiledPlan(s, n, x, k, order);
      PlanIsTidy(s, n, x, k, names);
      if k.propertyNames.Some? ==> k.propertyNames.value in closed {
        PlanIsSteady(closed, s, n, x, k, names);
      }
    }
    if k.propertyNames.Some? && k.propertyNames.value !in closed {
      var x := Obj(map[[] := Null]);
      var names := CompiledPlan(s, n, x, k, order);
      OnlyName(names, [], Null);
      NamesAreUnsteady(closed, k, []);
      assert !SteadyActions(closed, x, plan(x));
    }
  }

  /** allOf, then and else, the keywords that go on at the path of a scalar, have closed subschemas. */
  predicate ClosedKeywords(closed: set<nat>, k: Keywords) {
    && (forall i :: 0 <= i < |k.allOf| ==> k.allOf[i] in closed)
    && (k.ifSchema.Some? && k.thenSchema.Some? ==> k.thenSchema.value in closed)
    && (k.ifSchema.Some? && k.elseSchema.Some? ==> k.elseSchema.value in closed)
  }

  predicate AllClosed(closed: set<nat>, acts: seq<Action>) {
    forall i :: 0 <= i < |acts| ==> ClosedAction(closed, acts[i])
  }

  lemma BothClosedIff(closed: set<nat>, a: seq<Action>, b: seq<Action>)
    ensures AllClosed(closed, a + b) <==> AllClosed(closed, a) && AllClosed(closed, b)
  {
    assert forall i :: 0 <= i < |a| ==> (a + b)[i] == a[i];
    assert forall i :: 0 <= i < |b| ==> (a + b)[|a| + i] == b[i];
  }

  lemma AllOfClosedIff(closed: set<nat>, k: Keywords, x: Json)
    requires !x.IsContainer()
    ensures AllClosed(closed, AllOfPart(k, x)) <==> forall i :: 0 <= i < |k.allOf| ==> k.allOf[i] in closed
  {
    var part := AllOfPart(k, x);
    forall i | 0 <= i < |part|
      ensures ClosedAction(closed, part[i]) <==> k.allOf[i] in closed
    {
      assert part[i] == Guarded([Visit(k.allOf[i], x, [], false)]) &&
             part[i].body[0] == Visit(k.allOf[i], x, [], false);
    }
  }

  lemma CombinatorsClosedIff(closed: set<nat>, k: Keywords, x: Json)
    requires !x.IsContainer()
    ensures AllClosed(closed, CombinatorPart(k, x)) <==> ClosedKeywords(closed, k)
  {
    AllOfClosedIff(closed, k, x);
    BothClosedIff(closed, AllOfPart(k, x), AnyOfPart(k) + OneOfPart(k) + (NotPart(k) + IfPart(k)));
    BothClosedIff(closed, AnyOfPart(k) + OneOfPart(k), NotPart(k) + IfPart(k));
    BothClosedIff(closed, NotPart(k), IfPart(k));
    assert AllClosed(closed, AnyOfPart(k) + OneOfPart(k)) && AllClosed(closed, NotPart(k));
    assert k.ifSchema.Some? ==> IfPart(k)[0] == IfThenElse(k.ifSchema.value, k.thenSchema, k.elseSchema);
  }

  lemma PlanClosedIff(closed: set<nat>, k: Keywords, x: Json, names: seq<Text>)
    requires !x.IsContainer()
    ensures AllClosed(closed, PlanWith(k, x, names)) <==> ClosedKeywords(closed, k)
  {
    var specific, combined, last := Guarded(TypeSpecificPart(k, x, names)), Guarded(CombinatorPart(k, x)), Guarded([]);
    CombinatorsClosedIff(closed, k, x);
    assert ClosedAction(closed, combined) <==> AllClosed(closed, CombinatorPart(k, x));
    assert AllClosed(closed, ValuePart(k, x)) && AllClosed(closed, [specific]) && AllClosed(closed, [last]);
    assert AllClosed(closed, [combined]) <==> ClosedAction(closed, combined) by {
      assert [combined][0] == combined;
    }
    BothClosedIff(closed, ValuePart(k, x) + [specific], [combined] + [last]);
    BothClosedIff(closed, ValuePart(k, x), [specific]);
    BothClosedIff(closed, [combined], [last]);
    assert PlanWith(k, x, names) == (ValuePart(k, x) + [specific]) + ([combined] + [last]);
  }

  lemma ClosedIffKeywords(closed: set<nat>, s: Schema, n: nat, k: Keywords, order: MemberOrder)
    requires Compiled(s, n, k, order)
    ensures ClosedNode(closed, s.nodes[n]) <==> ClosedKeywords(closed, k)
  {
    var plan := s.nodes[n].plan;
    forall x: Json | !x.IsContainer()
      ensures AllClosed(closed, plan(x)) <==> ClosedKeywords(closed, k)
    {
      var names := CompiledPlan(s, n, x, k, order);
      PlanClosedIff(closed, k, x, names);
    }
    assert !Null.IsContainer();
  }

  /**
   * `closed` has the subschemas of propertyNames, with what they go on to at
   * the path, and there are no references among them.
   */
  predicate NamesMeetNoReference(closed: set<nat>, s: Schema, keywords: seq<Keywords>)
    requires |keywords| == |s.nodes|
  {
    && (forall n :: 0 <= n < |s.nodes| ==>
          match s.nodes[n]
          case ObjectSchema(_, _, _) => keywords[n].propertyNames.Some? ==> keywords[n].propertyNames.value in closed
          case DynamicRefSchema(target, _) => target.None?
          case _ => true)
    && (forall n :: n in closed ==>
          n < |s.nodes| && match s.nodes[n]
                           case ObjectSchema(_, _, _) => ClosedKeywords(closed, keywords[n])
                           case RefSchema(target, _) => target.None?
                           case _ => true)
  }

  /**
   * So the theorems on the guard apply to a compiled schema exactly if there
   * are no dynamic references and propertyNames meets no reference at the path.
   */
  lemma SteadyIffNamesMeetNoReference(closed: set<nat>, s: Schema, keywords: seq<Keywords>, order: MemberOrder)
    requires |keywords| == |s.nodes|
    requires forall n :: 0 <= n < |s.nodes| && s.nodes[n].ObjectSchema? ==> Compiled(s, n, keywords[n], order)
    ensures Steady(s, closed) <==> NamesMeetNoReference(closed, s, keywords)
  {
    forall n | 0 <= n < |s.nodes| && s.nodes[n].ObjectSchema?
      ensures TidyNode(s.nodes[n])
      ensures SteadyNode(closed, s.nodes[n]) <==>
              (keywords[n].propertyNames.Some? ==> keywords[n].propertyNames.value in closed)
      ensures ClosedNode(closed, s.nodes[n]) <==> ClosedKeywords(closed, keywords[n])
    {
      SteadyIffNames(closed, s, n, keywords[n], order);
      ClosedIffKeywords(closed, s, n, keywords[n], order);
    }
    if Steady(s, closed) {
      forall n | 0 <= n < |s.nodes|
        ensures s.nodes[n].DynamicRefSchema? ==> s.nodes[n].target.None?
      {
        assert TidyNode(s.nodes[n]);
      }
    }
    if NamesMeetNoReference(closed, s, keywords) {
      forall n | 0 <= n < |s.nodes|
        ensures TidyNode(s.nodes[n]) && SteadyNode(closed, s.nodes[n])
      {
      }
    }
  }

  lemma ListedOnce(names: seq<Text>, m: map<Text, Json>, i: nat, j: nat)
    requires Lists(names, m) && i < j < |names|
    ensures names[i] != names[j]
  {
  }

  lemma OnlyName(names: seq<Text>, name: Text, value: Json)
    requires Lists(names, map[name := value])
    ensures names == [name]
  {
    assert name in names;
    assert forall i :: 0 <= i < |names| ==> names[i] == name;
    if |names| > 1 {
      ListedOnce(names, map[name := value], 0, 1);
      assert false;
    }
  }

  // ---------------------------------------------------------------------
  // Whole schemas
  // ---------------------------------------------------------------------

  ghost predicate NodeLevels(s: Schema, level: seq<nat>, n: nat, k: Keywords, order: MemberOrder)
    requires |level| == |s.nodes| && n < |level|
  {
    if s.nodes[n].ObjectSchema? then Compiled(s, n, k, order) && Fits(false, level, n, k)
    else StratifiedNode(s, level, n)
  }

  /**
   * Validation of compiled schema objects, references and dynamic references
   * returns, however cyclic: levels have to fall only where a subschema is
   * tried on the same instance in a context of its own.
   */
  lemma KeywordsReturn(s: Schema, level: seq<nat>, keywords: seq<Keywords>, order: MemberOrder, instance: Json,
                       stopOnFirstError: bool) returns (fuel: nat)
    requires |keywords| == |level| == |s.nodes| && s.root < |s.nodes|
    requires forall n :: 0 <= n < |s.nodes| ==> NodeLevels(s, level, n, keywords[n], order)
    ensures RunRoot(fuel, s, instance, stopOnFirstError).Some?
  {
    forall n | 0 <= n < |level|
      ensures StratifiedNode(s, level, n)
    {
      assert NodeLevels(s, level, n, keywords[n], order);
      if s.nodes[n].ObjectSchema? {
        CompiledFits(false, s, level, n, keywords[n], order);
      }
    }
    fuel := ValidationReturns(s, level, instance, stopOnFirstError);
  }

  /**
   * Whether validation of a compiled schema returns, whatever its references
   * and combinators: it does exactly if it does within the bound.
   */
  lemma KeywordsReturnIff(s: Schema, keywords: seq<Keywords>, order: MemberOrder, instance: Json,
                          stopOnFirstError: bool)
    requires |keywords| == |s.nodes|
    requires forall n :: 0 <= n < |s.nodes| && s.nodes[n].ObjectSchema? ==> Compiled(s, n, keywords[n], order)
    ensures Returns(s, instance, stopOnFirstError) <==>
            RunRoot(Bound(|s.nodes|, Height(instance)), s, instance, stopOnFirstError).Some?
  {
    forall n | 0 <= n < |s.nodes|
      ensures GroundedNode(n, s.nodes[n])
    {
      if s.nodes[n].ObjectSchema? {
        forall x: Json
          ensures forall i :: 0 <= i < |s.nodes[n].plan(x)| ==> GroundedAction(n, x, s.nodes[n].plan(x)[i])
        {
          var names := CompiledPlan(s, n, x, keywords[n], order);
          PlanIsGrounded(s, n, x, keywords[n], names);
        }
      }
    }
    ReturnsIffWithinBound(s, instance, stopOnFirstError);
  }

  ghost predicate NodeDescends(s: Schema, rank: seq<nat>, n: nat, k: Keywords, order: MemberOrder)
    requires |rank| == |s.nodes| && n < |rank|
  {
    match s.nodes[n]
    case BooleanSchema(_) => true
    case ObjectSchema(_, _, _) => Compiled(s, n, k, order) && Fits(true, rank, n, k)
    case RefSchema(target, _) => target.Some? ==> target.value < |rank| && rank[target.value] < rank[n]
    case DynamicRefSchema(target, _) => target.None?
  }

  /**
   * Compiled schema objects and references that, at one instance path, go down
   * in rank. References back to enclosing schemas below members, elements or
   * additionalProperties, as in the schema of a tree, are of this kind.
   */
  ghost predicate Descending(s: Schema, rank: seq<nat>, keywords: seq<Keywords>, order: MemberOrder) {
    && |keywords| == |rank| == |s.nodes| && s.root < |s.nodes|
    && forall n :: 0 <= n < |s.nodes| ==> NodeDescends(s, rank, n, keywords[n], order)
  }

  lemma DescendingIsAcyclic(s: Schema, rank: seq<nat>, keywords: seq<Keywords>, order: MemberOrder)
    requires Descending(s, rank, keywords, order)
    ensures Acyclic(s, rank) && Regular(s)
  {
    forall n | 0 <= n < |s.nodes|
      ensures StratifiedNode(s, rank, n) && AcyclicNode(s, rank, n) && RegularNode(s.nodes[n])
    {
      assert NodeDescends(s, rank, n, keywords[n], order);
      if s.nodes[n].ObjectSchema? {
        CompiledFits(true, s, rank, n, keywords[n], order);
      }
    }
  }

  /** Nothing evaluated inside a member or element hides a sibling, wherever the reading comes to. */
  ghost predicate Unhidden(s: Schema, rank: seq<nat>, keywords: seq<Keywords>, order: MemberOrder, instance: Json)
    requires Descending(s, rank, keywords, order)
  {
    DescendingIsAcyclic(s, rank, keywords, order);
    NothingHidden(s, rank, s.root, instance)
  }

  /** Validation of such a schema decides what its keywords say. */
  lemma KeywordsDecide(s: Schema, rank: seq<nat>, keywords: seq<Keywords>, order: MemberOrder, instance: Json)
    requires Descending(s, rank, keywords, order) && Unhidden(s, rank, keywords, order, instance)
    ensures Collected(s, instance, []) <==> Sat(false, s, rank, s.root, instance)
    ensures forall n, x :: 0 <= n < |s.nodes| && s.nodes[n].ObjectSchema? ==>
                             (Sat(false, s, rank, n, x) <==> KeywordMeaning(s, rank, keywords[n], x))
    ensures forall n, x, p :: 0 <= n < |s.nodes| && s.nodes[n].ObjectSchema? ==>
                                (Evaluates(false, s, rank, n, x, p) <==> KeywordPlace(s, rank, keywords[n], x, p))
  {
    DescendingIsAcyclic(s, rank, keywords, order);
    NothingHiddenDecides(s, rank, instance);
    forall n, x | 0 <= n < |s.nodes| && s.nodes[n].ObjectSchema?
      ensures Sat(false, s, rank, n, x) <==> KeywordMeaning(s, rank, keywords[n], x)
    {
      assert NodeDescends(s, rank, n, keywords[n], order);
      SatisfiesIsMeaning(s, rank, n, x, keywords[n], order);
    }
    forall n, x, p | 0 <= n < |s.nodes| && s.nodes[n].ObjectSchema?
      ensures Evaluates(false, s, rank, n, x, p) <==> KeywordPlace(s, rank, keywords[n], x, p)
    {
      assert NodeDescends(s, rank, n, keywords[n], order);
      EvaluatedIsPlace(s, rank, n, x, keywords[n], order, p);
    }
  }

  predicate BooleanNode(s: Schema, child: Option<nat>) {
    child.Some? && child.value < |s.nodes| ==> s.nodes[child.value].BooleanSchema?
  }

  /** unevaluatedProperties and unevaluatedItems are boolean schemas, as they mostly are. */
  predicate BooleanUnevaluated(s: Schema, keywords: seq<Keywords>)
    requires |keywords| == |s.nodes|
  {
    forall n :: 0 <= n < |s.nodes| ==>
      BooleanNode(s, keywords[n].unevaluatedProperties) && BooleanNode(s, keywords[n].unevaluatedItems)
  }

  lemma BooleansHideNoPlace(s: Schema, rank: seq<nat>, n: nat, x: Json, front: seq<Action>, back: seq<Action>)
    requires ReadyActions(s, rank, n, x, front) && ReadyBack(s, rank, n, x, back)
    requires forall j :: 0 <= j < |back| ==> s.nodes[back[j].child].BooleanSchema?
    ensures !HiddenBack(s, rank, n, x, front, back)
  {
    forall j, p | 0 <= j < |back|
      ensures !LeaksInto(s, rank, n, x, front, back, j, p)
    {
      assert s.nodes[back[j].child].BooleanSchema?;
    }
  }

  lemma BooleansLeakNothing(s: Schema, rank: seq<nat>, n: nat, x: Json, k: Keywords, order: MemberOrder)
    requires Ready(s, rank, n) && Compiled(s, n, k, order)
    requires BooleanNode(s, k.unevaluatedProperties) && BooleanNode(s, k.unevaluatedItems)
    ensures !Hidden(s, rank, n, x)
  {
    var names := CompiledPlan(s, n, x, k, order);
    FrontAndBack(k, x, names);
    PlanIsReady(s, rank, n, x);
    var front, back := Front(s.nodes[n].plan(x), s.nodes[n].tracked), Back(s.nodes[n].plan(x), s.nodes[n].tracked);
    assert back == UnevaluatedPart(k, x, names);
    assert forall j :: 0 <= j < |back| ==> s.nodes[back[j].child].BooleanSchema?;
    BooleansHideNoPlace(s, rank, n, x, front, back);
  }

  /** Then nothing is hidden, in any instance. */
  lemma BooleansHideNothing(s: Schema, rank: seq<nat>, keywords: seq<Keywords>, order: MemberOrder, instance: Json)
    requires Descending(s, rank, keywords, order) && BooleanUnevaluated(s, keywords)
    ensures Unhidden(s, rank, keywords, order, instance)
  {
    DescendingIsAcyclic(s, rank, keywords, order);
    forall n: nat, x | n < |rank| && Reaches(s, rank, s.root, instance, n, x)
      ensures !Hidden(s, rank, n, x)
    {
      if s.nodes[n].ObjectSchema? {
        assert NodeDescends(s, rank, n, keywords[n], order);
        assert BooleanNode(s, keywords[n].unevaluatedProperties) && BooleanNode(s, keywords[n].unevaluatedItems);
        BooleansLeakNothing(s, rank, n, x, keywords[n], order);
      }
    }
  }

  /** With boolean unevaluatedProperties and unevaluatedItems the validator decides what the keywords say, always. */
  lemma BooleansDecide(s: Schema, rank: seq<nat>, keywords: seq<Keywords>, order: MemberOrder, instance: Json)
    requires Descending(s, rank, keywords, order) && BooleanUnevaluated(s, keywords)
    ensures Collected(s, instance, []) <==> Sat(false, s, rank, s.root, instance)
  {
    BooleansHideNothing(s, rank, keywords, order, instance);
    KeywordsDecide(s, rank, keywords, order, instance);
  }

  lemma CombinatorsAddNothing(s: Schema, rank: seq<nat>, n: nat, k: Keywords, x: Json, p: Place)
    requires n < |rank| && ChildrenFirst(k, n) && Fits(true, rank, n, k)
    requires forall child: nat :: child < |rank| && rank[child] < rank[n] ==> !Evaluates(false, s, rank, child, x, p)
    ensures !CombinatorPlace(false, s, rank, k, x, p)
  {
    forall i | 0 <= i < |k.allOf|
      ensures !Evaluates(false, s, rank, k.allOf[i], x, p)
    {
      assert Descends(true, rank, n, k.allOf[i]);
    }
    forall i | 0 <= i < |k.anyOf|
      ensures !Evaluates(false, s, rank, k.anyOf[i], x, p)
    {
      assert Descends(true, rank, n, k.anyOf[i]);
    }
    forall i | 0 <= i < |k.oneOf|
      ensures !Evaluates(false, s, rank, k.oneOf[i], x, p)
    {
      assert Descends(true, rank, n, k.oneOf[i]);
    }
  }

  /** Nothing in a string, number, boolean or null is evaluated; so propertyNames evaluates no places. */
  lemma {:induction false} ScalarsHaveNoPlaces(s: Schema, rank: seq<nat>, keywords: seq<Keywords>, order: MemberOrder,
                                              n: nat, x: Json, p: Place)
    requires Descending(s, rank, keywords, order) && n < |rank| && !x.IsContainer()
    ensures !Evaluates(false, s, rank, n, x, p)
    decreases if n < |rank| then rank[n] else 0
  {
    DescendingIsAcyclic(s, rank, keywords, order);
    var k := keywords[n];
    assert NodeDescends(s, rank, n, k, order);
    match s.nodes[n]
    case ObjectSchema(_, _, _) =>
      EvaluatedIsPlace(s, rank, n, x, k, order, p);
      forall child: nat | child < |rank| && rank[child] < rank[n]
        ensures !Evaluates(false, s, rank, child, x, p)
      {
        ScalarsHaveNoPlaces(s, rank, keywords, order, child, x, p);
      }
      CombinatorsAddNothing(s, rank, n, k, x, p);
    case RefSchema(target, _) =>
      if target.Some? {
        ScalarsHaveNoPlaces(s, rank, keywords, order, target.value, x, p);
      }
    case _ =>
  }
}
