/** The keywords of one schema object: the actions they make the validator perform, and what they mean. */
module SchemaKeywords {
  import opened JsonValue
  import opened JsonEquality
  import opened SchemaGraph
  import opened SchemaTermination
  import opened SchemaReading

  /**
   * The keywords of an ObjectSchema node; subschemas are node indices. The
   * assertions on types, numbers and strings are functions: whether the type is
   * refused, and how many errors a number or string gives.
   */
  datatype Keywords = Keywords(
    typeFails: Json -> bool,
    enumValues: Option<seq<Json>>,
    constValue: Option<Json>,
    scalarErrors: Json -> nat,
    // arrays
    minItems: Option<nat>,
    maxItems: Option<nat>,
    uniqueItems: bool,
    prefixItems: seq<nat>,
    items: Option<nat>,
    contains: Option<nat>,
    minContains: Option<nat>,
    maxContains: Option<nat>,
    // objects
    minProperties: Option<nat>,
    maxProperties: Option<nat>,
    required: seq<Text>,
    propertyNames: Option<nat>,
    properties: map<Text, nat>,
    patternProperties: seq<(Text -> bool, nat)>,
    additionalProperties: Option<nat>,
    additionalBoolean: Option<bool>,
    dependentRequired: seq<(Text, seq<Text>)>,
    dependentSchemas: seq<(Text, nat)>,
    // combinators
    allOf: seq<nat>,
    anyOf: seq<nat>,
    oneOf: seq<nat>,
    notSchema: Option<nat>,
    ifSchema: Option<nat>,
    thenSchema: Option<nat>,
    elseSchema: Option<nat>,
    // unevaluated
    unevaluatedProperties: Option<nat>,
    unevaluatedItems: Option<nat>
  ) {
    predicate NeedsTracker() {
      unevaluatedProperties.Some? || unevaluatedItems.Some?
    }
  }

  /** The order in which an object's members are walked. */
  type MemberOrder = map<Text, Json> -> seq<Text>

  /** Every member name once. */
  ghost predicate Lists(names: seq<Text>, m: map<Text, Json>) {
    && (forall i :: 0 <= i < |names| ==> names[i] in m) && (forall k :: k in m ==> k in names)
    && (forall i, j :: 0 <= i < j < |names| ==> names[i] != names[j])
  }

  ghost predicate Enumerates(order: MemberOrder) {
    forall m :: Lists(order(m), m)
  }

  // ---------------------------------------------------------------------
  // The actions
  // ---------------------------------------------------------------------

  /** An assertion about the instance: an error when it fails, otherwise nothing happens. */
  function Check(holds: bool): Action {
    if holds then Mark({}) else Fail([])
  }

  function ScalarPart(k: Keywords, x: Json): seq<Action> {
    seq(k.scalarErrors(x), _ => Fail([]))
  }

  function Within(size: nat, low: Option<nat>, high: Option<nat>): seq<Action> {
    [Check(low.None? || low.value <= size), Check(high.None? || size <= high.value)]
  }

  /** jsonValuesEqual: the equality of `JsonEquality`. */
  predicate Same(a: Json, b: Json) {
    Normalised(a) == Normalised(b)
  }

  predicate Allowed(k: Keywords, x: Json) {
    k.enumValues.Some? ==> exists i :: 0 <= i < |k.enumValues.value| && Same(x, k.enumValues.value[i])
  }

  predicate RepeatedLater(items: seq<Json>, i: nat)
    requires i < |items|
  {
    exists j :: i < j < |items| && Same(items[i], items[j])
  }

  function UniquePart(k: Keywords, items: seq<Json>): seq<Action> {
    if !k.uniqueItems then []
    else seq(|items|, i requires 0 <= i < |items| => Guarded([Check(!RepeatedLater(items, i))]))
  }

  function RequiredPart(required: seq<Text>, m: map<Text, Json>): seq<Action> {
    seq(|required|, i requires 0 <= i < |required| => Check(required[i] in m))
  }

  function DependentRequiredPart(required: seq<(Text, seq<Text>)>, m: map<Text, Json>): seq<Action> {
    if required == [] then []
    else (if required[0].0 in m then RequiredPart(required[0].1, m) else []) + DependentRequiredPart(required[1..], m)
  }

  /** An element or member: visited with the tracker suspended, then marked. */
  function VisitItem(child: nat, items: seq<Json>, i: nat): Action
    requires i < |items|
  {
    Guarded([Visit(child, items[i], [Item(i)], true), Mark({Item(i)})])
  }

  function PrefixPart(k: Keywords, items: seq<Json>): seq<Action> {
    var count := if |k.prefixItems| < |items| then |k.prefixItems| else |items|;
    seq(count, i requires 0 <= i < count => VisitItem(k.prefixItems[i], items, i))
  }

  function ItemsPart(k: Keywords, items: seq<Json>): seq<Action> {
    if k.items.None? || |items| <= |k.prefixItems| then []
    else
      seq(|items| - |k.prefixItems|, i requires 0 <= i < |items| - |k.prefixItems| =>
            VisitItem(k.items.value, items, |k.prefixItems| + i))
  }

  function ContainsPart(k: Keywords, items: seq<Json>): seq<Action> {
    if k.contains.None? then []
    else [Contains(k.contains.value, items, k.minContains.GetOr(1), k.maxContains)]
  }

  function ArrayPart(k: Keywords, items: seq<Json>): seq<Action> {
    Within(|items|, k.minItems, k.maxItems) + UniquePart(k, items)
    + (PrefixPart(k, items) + ItemsPart(k, items) + ContainsPart(k, items))
  }

  predicate Covered(k: Keywords, name: Text) {
    name in k.properties || exists i :: 0 <= i < |k.patternProperties| && k.patternProperties[i].0(name)
  }

  function PatternVisit(k: Keywords, name: Text, value: Json, i: nat): Action
    requires i < |k.patternProperties|
  {
    var (pattern, child) := k.patternProperties[i];
    if pattern(name) then Visit(child, value, [Property(name)], true) else Mark({})
  }

  function AdditionalPart(k: Keywords, name: Text, value: Json): seq<Action> {
    if k.additionalProperties.None? || Covered(k, name) then []
    else if k.additionalBoolean == Some(true) then []
    else if k.additionalBoolean == Some(false) then [Fail([Property(name)])]
    else [Visit(k.additionalProperties.value, value, [Property(name)], true)]
  }

  function NamedPart(k: Keywords, name: Text, value: Json): seq<Action> {
    if name in k.properties then [Visit(k.properties[name], value, [Property(name)], true)] else []
  }

  function PatternsPart(k: Keywords, name: Text, value: Json): seq<Action> {
    seq(|k.patternProperties|, i requires 0 <= i < |k.patternProperties| => PatternVisit(k, name, value, i))
  }

  function MarkOf(k: Keywords, name: Text): Action {
    Mark(if Covered(k, name) || k.additionalProperties.Some? then {Property(name)} else {})
  }

  function MemberPart(k: Keywords, name: Text, value: Json): seq<Action> {
    NamedPart(k, name, value) + PatternsPart(k, name, value) + (AdditionalPart(k, name, value) + [MarkOf(k, name)])
  }

  function NamesPart(k: Keywords, names: seq<Text>): seq<Action> {
    if k.propertyNames.None? then []
    else seq(|names|, i requires 0 <= i < |names| => Guarded([Visit(k.propertyNames.value, Str(names[i]), [], false)]))
  }

  function MembersPart(k: Keywords, m: map<Text, Json>, names: seq<Text>): seq<Action>
    requires forall i :: 0 <= i < |names| ==> names[i] in m
  {
    seq(|names|, i requires 0 <= i < |names| => Guarded(MemberPart(k, names[i], m[names[i]])))
  }

  function DependentPart(k: Keywords, x: Json): seq<Action>
    requires x.Obj?
  {
    seq(|k.dependentSchemas|, i requires 0 <= i < |k.dependentSchemas| =>
          if k.dependentSchemas[i].0 in x.members then Visit(k.dependentSchemas[i].1, x, [], false) else Mark({}))
  }

  function ObjectPart(k: Keywords, x: Json, names: seq<Text>): seq<Action>
    requires x.Obj? && forall i :: 0 <= i < |names| ==> names[i] in x.members
  {
    Within(|x.members|, k.minProperties, k.maxProperties) + RequiredPart(k.required, x.members)
    + (NamesPart(k, names) + MembersPart(k, x.members, names)
       + (DependentRequiredPart(k.dependentRequired, x.members) + DependentPart(k, x)))
  }

  function AllOfPart(k: Keywords, x: Json): seq<Action> {
    seq(|k.allOf|, i requires 0 <= i < |k.allOf| => Guarded([Visit(k.allOf[i], x, [], false)]))
  }

  function AnyOfPart(k: Keywords): seq<Action> {
    if k.anyOf == [] then [] else [AnyOf(k.anyOf)]
  }

  function OneOfPart(k: Keywords): seq<Action> {
    if k.oneOf == [] then [] else [OneOf(k.oneOf)]
  }

  function NotPart(k: Keywords): seq<Action> {
    if k.notSchema.None? then [] else [Not(k.notSchema.value)]
  }

  function IfPart(k: Keywords): seq<Action> {
    if k.ifSchema.None? then [] else [IfThenElse(k.ifSchema.value, k.thenSchema, k.elseSchema)]
  }

  function CombinatorPart(k: Keywords, x: Json): seq<Action> {
    AllOfPart(k, x) + (AnyOfPart(k) + OneOfPart(k) + (NotPart(k) + IfPart(k)))
  }

  function UnevaluatedPart(k: Keywords, x: Json, names: seq<Text>): seq<Action>
    requires x.Obj? ==> forall i :: 0 <= i < |names| ==> names[i] in x.members
  {
    if x.Obj? && k.unevaluatedProperties.Some? then
      seq(|names|, i requires 0 <= i < |names| =>
            Unevaluated(Property(names[i]), k.unevaluatedProperties.value, x.members[names[i]]))
    else if x.Arr? && k.unevaluatedItems.Some? then
      seq(|x.items|, i requires 0 <= i < |x.items| => Unevaluated(Item(i), k.unevaluatedItems.value, x.items[i]))
    else []
  }

  function TypeSpecificPart(k: Keywords, x: Json, names: seq<Text>): seq<Action>
    requires x.Obj? ==> forall i :: 0 <= i < |names| ==> names[i] in x.members
  {
    match x
    case Arr(items) => ArrayPart(k, items)
    case Obj(_) => ObjectPart(k, x, names)
    case _ => ScalarPart(k, x)
  }

  function ValuePart(k: Keywords, x: Json): seq<Action> {
    [Guarded([Check(!k.typeFails(x))]), Guarded([Check(Allowed(k, x))]),
     Guarded([Check(k.constValue.Some? ==> Same(x, k.constValue.value))])]
  }

  /** validateObjectSchema: every phase runs only while there is a reason to continue. */
  function PlanWith(k: Keywords, x: Json, names: seq<Text>): seq<Action>
    requires x.Obj? ==> forall i :: 0 <= i < |names| ==> names[i] in x.members
  {
    ValuePart(k, x)
    + [Guarded(TypeSpecificPart(k, x, names)), Guarded(CombinatorPart(k, x)), Guarded(UnevaluatedPart(k, x, names))]
  }

  function KnownNames(m: map<Text, Json>, names: seq<Text>): (r: seq<Text>)
    ensures forall i :: 0 <= i < |r| ==> r[i] in m
    ensures (forall i :: 0 <= i < |names| ==> names[i] in m) ==> r == names
  {
    if forall i :: 0 <= i < |names| ==> names[i] in m then names else []
  }

  function NamesOf(order: MemberOrder, x: Json): (names: seq<Text>)
    ensures x.Obj? ==> forall i :: 0 <= i < |names| ==> names[i] in x.members
  {
    if x.Obj? then KnownNames(x.members, order(x.members)) else []
  }

  function Plan(k: Keywords, order: MemberOrder, x: Json): seq<Action> {
    PlanWith(k, x, NamesOf(order, x))
  }

  /** The node compiled for a schema object. */
  function NodeOf(k: Keywords, order: MemberOrder, selfIndex: Option<nat>): Node {
    ObjectSchema(x => Plan(k, order, x), k.NeedsTracker(), selfIndex)
  }

  // ---------------------------------------------------------------------
  // The meaning
  // ---------------------------------------------------------------------

  /** `Satisfies` and `EvaluatedAt`, for use under quantifiers. */
  ghost predicate Sat(leak: bool, s: Schema, rank: seq<nat>, child: nat, x: Json) {
    Ready(s, rank, child) && Satisfies(leak, s, rank, child, x)
  }

  ghost predicate Evaluates(leak: bool, s: Schema, rank: seq<nat>, child: nat, x: Json, p: Place) {
    Ready(s, rank, child) && EvaluatedAt(leak, s, rank, child, x, p)
  }

  ghost predicate ValueMeaning(k: Keywords, x: Json) {
    && !k.typeFails(x)
    && (k.enumValues.Some? ==> exists i :: 0 <= i < |k.enumValues.value| && DeepEqual(x, k.enumValues.value[i]))
    && (k.constValue.Some? ==> DeepEqual(x, k.constValue.value))
  }

  predicate InRange(size: nat, low: Option<nat>, high: Option<nat>) {
    (low.Some? ==> low.value <= size) && (high.Some? ==> size <= high.value)
  }

  ghost predicate ElementsMeaning(leak: bool, s: Schema, rank: seq<nat>, k: Keywords, items: seq<Json>) {
    && (forall i :: 0 <= i < |items| && i < |k.prefixItems| ==> Sat(leak, s, rank, k.prefixItems[i], items[i]))
    && (k.items.Some? ==> forall i :: |k.prefixItems| <= i < |items| ==> Sat(leak, s, rank, k.items.value, items[i]))
  }

  ghost predicate CountMeaning(leak: bool, s: Schema, rank: seq<nat>, k: Keywords, items: seq<Json>) {
    k.contains.Some? ==>
      var matching := |set i: nat | i < |items| && Sat(leak, s, rank, k.contains.value, items[i])|;
      k.minContains.GetOr(1) <= matching && (k.maxContains.Some? ==> matching <= k.maxContains.value)
  }

  ghost predicate ArrayMeaning(leak: bool, s: Schema, rank: seq<nat>, k: Keywords, items: seq<Json>) {
    && InRange(|items|, k.minItems, k.maxItems)
    && (k.uniqueItems ==> forall i, j :: 0 <= i < j < |items| ==> !DeepEqual(items[i], items[j]))
    && ElementsMeaning(leak, s, rank, k, items)
    && CountMeaning(leak, s, rank, k, items)
  }

  predicate DependenciesMet(required: seq<(Text, seq<Text>)>, m: map<Text, Json>) {
    forall i, j :: 0 <= i < |required| && required[i].0 in m && 0 <= j < |required[i].1| ==> required[i].1[j] in m
  }

  /** Neither properties nor patternProperties names the member. */
  predicate Unnamed(k: Keywords, name: Text) {
    name !in k.properties && forall i :: 0 <= i < |k.patternProperties| ==> !k.patternProperties[i].0(name)
  }

  ghost predicate MemberMeaning(leak: bool, s: Schema, rank: seq<nat>, k: Keywords, name: Text, value: Json) {
    && (name in k.properties ==> Sat(leak, s, rank, k.properties[name], value))
    && (forall i :: 0 <= i < |k.patternProperties| && k.patternProperties[i].0(name) ==>
                      Sat(leak, s, rank, k.patternProperties[i].1, value))
    && (k.additionalProperties.Some? && Unnamed(k, name) ==> Sat(leak, s, rank, k.additionalProperties.value, value))
  }

  ghost predicate ObjectMeaning(leak: bool, s: Schema, rank: seq<nat>, k: Keywords, x: Json)
    requires x.Obj?
  {
    && InRange(|x.members|, k.minProperties, k.maxProperties)
    && (forall i :: 0 <= i < |k.required| ==> k.required[i] in x.members)
    && DependenciesMet(k.dependentRequired, x.members)
    && (k.propertyNames.Some? ==> forall name :: name in x.members ==>
          Sat(leak, s, rank, k.propertyNames.value, Str(name)))
    && (forall name :: name in x.members ==> MemberMeaning(leak, s, rank, k, name, x.members[name]))
    && (forall i :: 0 <= i < |k.dependentSchemas| && k.dependentSchemas[i].0 in x.members ==>
                      Sat(leak, s, rank, k.dependentSchemas[i].1, x))
  }

  ghost predicate SomeSat(leak: bool, s: Schema, rank: seq<nat>, children: seq<nat>, x: Json) {
    exists i :: 0 <= i < |children| && Sat(leak, s, rank, children[i], x)
  }

  ghost predicate OnlySat(leak: bool, s: Schema, rank: seq<nat>, children: seq<nat>, x: Json, i: nat)
    requires i < |children|
  {
    && Sat(leak, s, rank, children[i], x)
    && forall j :: 0 <= j < |children| && j != i ==> !Sat(leak, s, rank, children[j], x)
  }

  ghost predicate OneSat(leak: bool, s: Schema, rank: seq<nat>, children: seq<nat>, x: Json) {
    exists i :: 0 <= i < |children| && OnlySat(leak, s, rank, children, x, i)
  }

  ghost predicate ConditionMeaning(leak: bool, s: Schema, rank: seq<nat>, k: Keywords, x: Json) {
    k.ifSchema.Some? ==>
      if Sat(leak, s, rank, k.ifSchema.value, x) then k.thenSchema.Some? ==> Sat(leak, s, rank, k.thenSchema.value, x)
      else k.elseSchema.Some? ==> Sat(leak, s, rank, k.elseSchema.value, x)
  }

  ghost predicate CombinatorMeaning(leak: bool, s: Schema, rank: seq<nat>, k: Keywords, x: Json) {
    && (forall i :: 0 <= i < |k.allOf| ==> Sat(leak, s, rank, k.allOf[i], x))
    && (k.anyOf != [] ==> SomeSat(leak, s, rank, k.anyOf, x))
    && (k.oneOf != [] ==> OneSat(leak, s, rank, k.oneOf, x))
    && (k.notSchema.Some? ==> !Sat(leak, s, rank, k.notSchema.value, x))
    && ConditionMeaning(leak, s, rank, k, x)
  }

  ghost predicate TypeSpecificMeaning(leak: bool, s: Schema, rank: seq<nat>, k: Keywords, x: Json) {
    match x
    case Arr(items) => ArrayMeaning(leak, s, rank, k, items)
    case Obj(_) => ObjectMeaning(leak, s, rank, k, x)
    case _ => k.scalarErrors(x) == 0
  }

  // Which places of the instance the keywords evaluate, when it satisfies them

  ghost predicate ArrayPlace(leak: bool, s: Schema, rank: seq<nat>, k: Keywords, items: seq<Json>, p: Place) {
    && p.Item? && p.index < |items|
    && (|| p.index < |k.prefixItems| || k.items.Some?
        || (k.contains.Some? && Sat(leak, s, rank, k.contains.value, items[p.index])))
  }

  ghost predicate ObjectPlace(leak: bool, s: Schema, rank: seq<nat>, k: Keywords, x: Json, p: Place)
    requires x.Obj?
  {
    || (p.Property? && p.name in x.members && (!Unnamed(k, p.name) || k.additionalProperties.Some?))
    || (exists i :: && 0 <= i < |k.dependentSchemas| && k.dependentSchemas[i].0 in x.members
                    && Evaluates(leak, s, rank, k.dependentSchemas[i].1, x, p))
    || (k.propertyNames.Some?
        && exists name :: name in x.members && Evaluates(leak, s, rank, k.propertyNames.value, Str(name), p))
  }

  ghost predicate TypeSpecificPlace(leak: bool, s: Schema, rank: seq<nat>, k: Keywords, x: Json, p: Place) {
    match x
    case Arr(items) => ArrayPlace(leak, s, rank, k, items, p)
    case Obj(_) => ObjectPlace(leak, s, rank, k, x, p)
    case _ => false
  }

  /** A satisfied alternative evaluates the place. */
  ghost predicate ChoicePlace(leak: bool, s: Schema, rank: seq<nat>, children: seq<nat>, x: Json, p: Place) {
    exists i :: 0 <= i < |children| && Sat(leak, s, rank, children[i], x) && Evaluates(leak, s, rank, children[i], x, p)
  }

  ghost predicate ConditionPlace(leak: bool, s: Schema, rank: seq<nat>, k: Keywords, x: Json, p: Place) {
    && k.ifSchema.Some?
    && if Sat(leak, s, rank, k.ifSchema.value, x) then
         || Evaluates(leak, s, rank, k.ifSchema.value, x, p)
         || (k.thenSchema.Some? && Evaluates(leak, s, rank, k.thenSchema.value, x, p))
       else k.elseSchema.Some? && Evaluates(leak, s, rank, k.elseSchema.value, x, p)
  }

  ghost predicate CombinatorPlace(leak: bool, s: Schema, rank: seq<nat>, k: Keywords, x: Json, p: Place) {
    || (exists i :: 0 <= i < |k.allOf| && Evaluates(leak, s, rank, k.allOf[i], x, p))
    || ChoicePlace(leak, s, rank, k.anyOf, x, p) || ChoicePlace(leak, s, rank, k.oneOf, x, p)
    || ConditionPlace(leak, s, rank, k, x, p)
  }

  /** Evaluated by the keywords next to unevaluatedProperties / unevaluatedItems. */
  ghost predicate EvaluatedBeside(leak: bool, s: Schema, rank: seq<nat>, k: Keywords, x: Json, p: Place) {
    TypeSpecificPlace(leak, s, rank, k, x, p) || CombinatorPlace(leak, s, rank, k, x, p)
  }

  ghost predicate UnevaluatedMeaning(s: Schema, rank: seq<nat>, k: Keywords, x: Json) {
    && (x.Obj? && k.unevaluatedProperties.Some? ==>
          forall name :: name in x.members && !EvaluatedBeside(false, s, rank, k, x, Property(name)) ==>
                           Sat(false, s, rank, k.unevaluatedProperties.value, x.members[name]))
    && (x.Arr? && k.unevaluatedItems.Some? ==>
          forall i :: 0 <= i < |x.items| && !EvaluatedBeside(false, s, rank, k, x, Item(i)) ==>
                        Sat(false, s, rank, k.unevaluatedItems.value, x.items[i]))
  }

  /** What the keywords say about an instance; no order, no early exit, no context. */
  ghost predicate KeywordMeaning(s: Schema, rank: seq<nat>, k: Keywords, x: Json) {
    && ValueMeaning(k, x)
    && TypeSpecificMeaning(false, s, rank, k, x)
    && CombinatorMeaning(false, s, rank, k, x)
    && UnevaluatedMeaning(s, rank, k, x)
  }

  /** The places the keywords evaluate: with unevaluated*, all that are left. */
  ghost predicate KeywordPlace(s: Schema, rank: seq<nat>, k: Keywords, x: Json, p: Place) {
    || EvaluatedBeside(false, s, rank, k, x, p)
    || (x.Obj? && k.unevaluatedProperties.Some? && p.Property? && p.name in x.members)
    || (x.Arr? && k.unevaluatedItems.Some? && p.Item? && p.index < |x.items|)
  }
}
