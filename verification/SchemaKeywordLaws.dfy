/** What the keywords of a compiled schema object make the validator decide. */
module SchemaKeywordLaws {
  import opened JsonValue
  import opened JsonEquality
  import opened SchemaGraph
  import opened SchemaReading
  import opened SchemaKeywords

  // ---------------------------------------------------------------------
  // The actions have that meaning
  // ---------------------------------------------------------------------

  /** `additionalBoolean` is the value of an additionalProperties node that is a boolean schema. */
  ghost predicate BooleanKnown(s: Schema, k: Keywords) {
    k.additionalProperties.Some? && k.additionalProperties.value < |s.nodes| ==>
      match s.nodes[k.additionalProperties.value]
      case BooleanSchema(value) => k.additionalBoolean == Some(value)
      case _ => k.additionalBoolean == None
  }

  lemma PartsAreReady(s: Schema, rank: seq<nat>, n: nat, x: Json, a: seq<Action>, b: seq<Action>)
    requires ReadyActions(s, rank, n, x, a + b)
    ensures ReadyActions(s, rank, n, x, a) && ReadyActions(s, rank, n, x, b)
  {
    assert forall i :: 0 <= i < |a| ==> (a + b)[i] == a[i];
    assert forall i :: 0 <= i < |b| ==> (a + b)[|a| + i] == b[i];
  }

  lemma PartsSatisfied(leak: bool, s: Schema, rank: seq<nat>, n: nat, x: Json, a: seq<Action>, b: seq<Action>)
    requires ReadyActions(s, rank, n, x, a + b) && ReadyActions(s, rank, n, x, a) && ReadyActions(s, rank, n, x, b)
    ensures AllHold(leak, s, rank, n, x, a + b) <==> AllHold(leak, s, rank, n, x, a) && AllHold(leak, s, rank, n, x, b)
  {
    var c := a + b;
    if AllHold(leak, s, rank, n, x, c) {
      assert forall i :: 0 <= i < |a| ==> c[i] == a[i];
      assert forall i :: 0 <= i < |b| ==> c[|a| + i] == b[i];
    }
    if AllHold(leak, s, rank, n, x, a) && AllHold(leak, s, rank, n, x, b) {
      assert forall i :: 0 <= i < |c| ==> c[i] == if i < |a| then a[i] else b[i - |a|];
    }
  }

  lemma PartsEvaluate(leak: bool, s: Schema, rank: seq<nat>, n: nat, x: Json, a: seq<Action>, b: seq<Action>, p: Place)
    requires ReadyActions(s, rank, n, x, a + b) && ReadyActions(s, rank, n, x, a) && ReadyActions(s, rank, n, x, b)
    ensures EvaluatedBy(leak, s, rank, n, x, a + b, p) <==>
            EvaluatedBy(leak, s, rank, n, x, a, p) || EvaluatedBy(leak, s, rank, n, x, b, p)
  {
    var c := a + b;
    if i :| 0 <= i < |a| && MarkedBy(leak, s, rank, n, x, a[i], p) {
      assert c[i] == a[i];
    }
    if i :| 0 <= i < |b| && MarkedBy(leak, s, rank, n, x, b[i], p) {
      assert c[|a| + i] == b[i];
    }
    if i :| 0 <= i < |c| && MarkedBy(leak, s, rank, n, x, c[i], p) {
      assert c[i] == if i < |a| then a[i] else b[i - |a|];
    }
  }

  lemma PartsHold(leak: bool, s: Schema, rank: seq<nat>, n: nat, x: Json, a: seq<Action>, b: seq<Action>, p: Place)
    requires ReadyActions(s, rank, n, x, a + b)
    ensures ReadyActions(s, rank, n, x, a) && ReadyActions(s, rank, n, x, b)
    ensures AllHold(leak, s, rank, n, x, a + b) <==> AllHold(leak, s, rank, n, x, a) && AllHold(leak, s, rank, n, x, b)
    ensures EvaluatedBy(leak, s, rank, n, x, a + b, p) <==>
            EvaluatedBy(leak, s, rank, n, x, a, p) || EvaluatedBy(leak, s, rank, n, x, b, p)
  {
    PartsAreReady(s, rank, n, x, a, b);
    PartsSatisfied(leak, s, rank, n, x, a, b);
    PartsEvaluate(leak, s, rank, n, x, a, b, p);
  }

  lemma FourPartsHold(leak: bool, s: Schema, rank: seq<nat>, n: nat, x: Json,
                      a: seq<Action>, b: seq<Action>, c: seq<Action>, d: seq<Action>, p: Place)
    requires ReadyActions(s, rank, n, x, (a + b) + (c + d))
    ensures ReadyActions(s, rank, n, x, a) && ReadyActions(s, rank, n, x, b)
    ensures ReadyActions(s, rank, n, x, c) && ReadyActions(s, rank, n, x, d)
    ensures AllHold(leak, s, rank, n, x, (a + b) + (c + d)) <==>
            && AllHold(leak, s, rank, n, x, a) && AllHold(leak, s, rank, n, x, b)
            && AllHold(leak, s, rank, n, x, c) && AllHold(leak, s, rank, n, x, d)
    ensures EvaluatedBy(leak, s, rank, n, x, (a + b) + (c + d), p) <==>
            || EvaluatedBy(leak, s, rank, n, x, a, p) || EvaluatedBy(leak, s, rank, n, x, b, p)
            || EvaluatedBy(leak, s, rank, n, x, c, p) || EvaluatedBy(leak, s, rank, n, x, d, p)
  {
    PartsHold(leak, s, rank, n, x, a + b, c + d, p);
    PartsHold(leak, s, rank, n, x, a, b, p);
    PartsHold(leak, s, rank, n, x, c, d, p);
  }

  lemma GuardedHolds(leak: bool, s: Schema, rank: seq<nat>, n: nat, x: Json, body: seq<Action>, p: Place)
    requires ReadyAction(s, rank, n, x, Guarded(body))
    ensures ReadyActions(s, rank, n, x, body)
    ensures SatisfiesAction(leak, s, rank, n, x, Guarded(body)) <==> AllHold(leak, s, rank, n, x, body)
    ensures MarkedBy(leak, s, rank, n, x, Guarded(body), p) <==> EvaluatedBy(leak, s, rank, n, x, body, p)
  {
  }

  lemma OnlyHolds(leak: bool, s: Schema, rank: seq<nat>, n: nat, x: Json, act: Action, p: Place)
    requires ReadyActions(s, rank, n, x, [act])
    ensures ReadyAction(s, rank, n, x, act)
    ensures AllHold(leak, s, rank, n, x, [act]) <==> SatisfiesAction(leak, s, rank, n, x, act)
    ensures EvaluatedBy(leak, s, rank, n, x, [act], p) <==> MarkedBy(leak, s, rank, n, x, act, p)
  {
    assert [act][0] == act;
  }

  lemma VisitHolds(leak: bool, s: Schema, rank: seq<nat>, n: nat, x: Json, act: Action, p: Place)
    requires act.Visit? && ReadyAction(s, rank, n, x, act)
    ensures SatisfiesAction(leak, s, rank, n, x, act) <==> Sat(leak, s, rank, act.child, act.instance)
    ensures MarkedBy(leak, s, rank, n, x, act, p) <==>
            !act.suspended && Evaluates(leak, s, rank, act.child, act.instance, p)
  {
  }

  // Assertions

  predicate IsCheck(act: Action, holds: bool) {
    act == Check(holds) || act == Guarded([Check(holds)])
  }

  lemma CheckHolds(leak: bool, s: Schema, rank: seq<nat>, n: nat, x: Json, act: Action, holds: bool, p: Place)
    requires ReadyAction(s, rank, n, x, act) && IsCheck(act, holds)
    ensures SatisfiesAction(leak, s, rank, n, x, act) <==> holds
    ensures !MarkedBy(leak, s, rank, n, x, act, p)
  {
    if act.Guarded? {
      GuardedHolds(leak, s, rank, n, x, [Check(holds)], p);
      OnlyHolds(leak, s, rank, n, x, Check(holds), p);
    }
  }

  lemma ChecksHold(leak: bool, s: Schema, rank: seq<nat>, n: nat, x: Json, acts: seq<Action>, holds: seq<bool>,
                   p: Place)
    requires ReadyActions(s, rank, n, x, acts)
    requires |acts| == |holds| && forall i :: 0 <= i < |acts| ==> IsCheck(acts[i], holds[i])
    ensures AllHold(leak, s, rank, n, x, acts) <==> forall i :: 0 <= i < |holds| ==> holds[i]
    ensures !EvaluatedBy(leak, s, rank, n, x, acts, p)
  {
    forall i | 0 <= i < |acts|
      ensures SatisfiesAction(leak, s, rank, n, x, acts[i]) <==> holds[i]
      ensures !MarkedBy(leak, s, rank, n, x, acts[i], p)
    {
      CheckHolds(leak, s, rank, n, x, acts[i], holds[i], p);
    }
  }

  // Arrays

  lemma VisitItemHolds(leak: bool, s: Schema, rank: seq<nat>, n: nat, x: Json, child: nat, items: seq<Json>, i: nat,
                       p: Place)
    requires i < |items| && ReadyAction(s, rank, n, x, VisitItem(child, items, i))
    ensures SatisfiesAction(leak, s, rank, n, x, VisitItem(child, items, i)) <==> Sat(leak, s, rank, child, items[i])
    ensures MarkedBy(leak, s, rank, n, x, VisitItem(child, items, i), p) <==> p == Item(i)
  {
    var visit, mark := Visit(child, items[i], [Item(i)], true), Mark({Item(i)});
    GuardedHolds(leak, s, rank, n, x, [visit, mark], p);
    assert [visit, mark][0] == visit && [visit, mark][1] == mark;
    VisitHolds(leak, s, rank, n, x, visit, p);
    assert MarkedBy(leak, s, rank, n, x, mark, p) <==> p == Item(i);
  }

  lemma PrefixItemHolds(leak: bool, s: Schema, rank: seq<nat>, n: nat, x: Json, k: Keywords, items: seq<Json>, i: nat,
                        p: Place)
    requires ReadyActions(s, rank, n, x, PrefixPart(k, items)) && i < |PrefixPart(k, items)|
    ensures SatisfiesAction(leak, s, rank, n, x, PrefixPart(k, items)[i]) <==>
            Sat(leak, s, rank, k.prefixItems[i], items[i])
    ensures MarkedBy(leak, s, rank, n, x, PrefixPart(k, items)[i], p) <==> p == Item(i)
  {
    assert ReadyAction(s, rank, n, x, PrefixPart(k, items)[i]);
    VisitItemHolds(leak, s, rank, n, x, k.prefixItems[i], items, i, p);
  }

  lemma PrefixHolds(leak: bool, s: Schema, rank: seq<nat>, n: nat, x: Json, k: Keywords, items: seq<Json>)
    requires ReadyActions(s, rank, n, x, PrefixPart(k, items))
    ensures AllHold(leak, s, rank, n, x, PrefixPart(k, items)) <==>
            forall i :: 0 <= i < |items| && i < |k.prefixItems| ==> Sat(leak, s, rank, k.prefixItems[i], items[i])
  {
    var part := PrefixPart(k, items);
    forall i | 0 <= i < |part|
      ensures SatisfiesAction(leak, s, rank, n, x, part[i]) <==> Sat(leak, s, rank, k.prefixItems[i], items[i])
    {
      PrefixItemHolds(leak, s, rank, n, x, k, items, i, Item(i));
    }
  }

  lemma PrefixMarks(leak: bool, s: Schema, rank: seq<nat>, n: nat, x: Json, k: Keywords, items: seq<Json>, p: Place)
    requires ReadyActions(s, rank, n, x, PrefixPart(k, items))
    ensures EvaluatedBy(leak, s, rank, n, x, PrefixPart(k, items), p) <==>
            p.Item? && p.index < |items| && p.index < |k.prefixItems|
  {
    var part := PrefixPart(k, items);
    forall i | 0 <= i < |part|
      ensures MarkedBy(leak, s, rank, n, x, part[i], p) <==> p == Item(i)
    {
      PrefixItemHolds(leak, s, rank, n, x, k, items, i, p);
    }
  }

  lemma LaterItemHolds(leak: bool, s: Schema, rank: seq<nat>, n: nat, x: Json, k: Keywords, items: seq<Json>, j: nat,
                       p: Place)
    requires ReadyActions(s, rank, n, x, ItemsPart(k, items)) && j < |ItemsPart(k, items)|
    ensures SatisfiesAction(leak, s, rank, n, x, ItemsPart(k, items)[j]) <==>
            Sat(leak, s, rank, k.items.value, items[|k.prefixItems| + j])
    ensures MarkedBy(leak, s, rank, n, x, ItemsPart(k, items)[j], p) <==> p == Item(|k.prefixItems| + j)
  {
    assert ReadyAction(s, rank, n, x, ItemsPart(k, items)[j]);
    VisitItemHolds(leak, s, rank, n, x, k.items.value, items, |k.prefixItems| + j, p);
  }

  lemma ItemsHold(leak: bool, s: Schema, rank: seq<nat>, n: nat, x: Json, k: Keywords, items: seq<Json>)
    requires ReadyActions(s, rank, n, x, ItemsPart(k, items))
    ensures AllHold(leak, s, rank, n, x, ItemsPart(k, items)) <==>
            (k.items.Some? ==> forall i :: |k.prefixItems| <= i < |items| ==>
               Sat(leak, s, rank, k.items.value, items[i]))
  {
    var part, first := ItemsPart(k, items), |k.prefixItems|;
    forall j | 0 <= j < |part|
      ensures SatisfiesAction(leak, s, rank, n, x, part[j]) <==> Sat(leak, s, rank, k.items.value, items[first + j])
    {
      LaterItemHolds(leak, s, rank, n, x, k, items, j, Item(j));
    }
    if AllHold(leak, s, rank, n, x, part) && k.items.Some? {
      forall i | first <= i < |items|
        ensures Sat(leak, s, rank, k.items.value, items[i])
      {
        assert SatisfiesAction(leak, s, rank, n, x, part[i - first]);
      }
    }
  }

  lemma ItemsMark(leak: bool, s: Schema, rank: seq<nat>, n: nat, x: Json, k: Keywords, items: seq<Json>, p: Place)
    requires ReadyActions(s, rank, n, x, ItemsPart(k, items))
    ensures EvaluatedBy(leak, s, rank, n, x, ItemsPart(k, items), p) <==>
            k.items.Some? && p.Item? && |k.prefixItems| <= p.index < |items|
  {
    var part, first := ItemsPart(k, items), |k.prefixItems|;
    forall j | 0 <= j < |part|
      ensures MarkedBy(leak, s, rank, n, x, part[j], p) <==> p == Item(first + j)
    {
      LaterItemHolds(leak, s, rank, n, x, k, items, j, p);
    }
    if k.items.Some? && p.Item? && first <= p.index < |items| {
      assert MarkedBy(leak, s, rank, n, x, part[p.index - first], p);
    }
  }

  lemma ElementsHold(leak: bool, s: Schema, rank: seq<nat>, n: nat, x: Json, k: Keywords, items: seq<Json>, p: Place)
    requires ReadyActions(s, rank, n, x, PrefixPart(k, items) + ItemsPart(k, items))
    ensures AllHold(leak, s, rank, n, x, PrefixPart(k, items) + ItemsPart(k, items)) <==>
            ElementsMeaning(leak, s, rank, k, items)
    ensures EvaluatedBy(leak, s, rank, n, x, PrefixPart(k, items) + ItemsPart(k, items), p) <==>
            p.Item? && p.index < |items| && (p.index < |k.prefixItems| || k.items.Some?)
  {
    PartsHold(leak, s, rank, n, x, PrefixPart(k, items), ItemsPart(k, items), p);
    PrefixHolds(leak, s, rank, n, x, k, items);
    PrefixMarks(leak, s, rank, n, x, k, items, p);
    ItemsHold(leak, s, rank, n, x, k, items);
    ItemsMark(leak, s, rank, n, x, k, items, p);
  }

  lemma ContainsHolds(leak: bool, s: Schema, rank: seq<nat>, n: nat, x: Json, act: Action, p: Place)
    requires act.Contains? && ReadyAction(s, rank, n, x, act)
    ensures SatisfiesAction(leak, s, rank, n, x, act) <==>
            var matching := |set i: nat | i < |act.items| && Sat(leak, s, rank, act.child, act.items[i])|;
            act.minContains <= matching && (act.maxContains.Some? ==> matching <= act.maxContains.value)
    ensures MarkedBy(leak, s, rank, n, x, act, p) <==>
            p.Item? && p.index < |act.items| && Sat(leak, s, rank, act.child, act.items[p.index])
  {
    assert Matching(leak, s, rank, n, x, act.child, act.items) ==
           set i: nat | i < |act.items| && Sat(leak, s, rank, act.child, act.items[i]);
  }

  lemma UniqueHolds(leak: bool, s: Schema, rank: seq<nat>, n: nat, x: Json, k: Keywords, items: seq<Json>, p: Place)
    requires ReadyActions(s, rank, n, x, UniquePart(k, items))
    ensures AllHold(leak, s, rank, n, x, UniquePart(k, items)) <==>
            (k.uniqueItems ==> forall i, j :: 0 <= i < j < |items| ==> !DeepEqual(items[i], items[j]))
    ensures !EvaluatedBy(leak, s, rank, n, x, UniquePart(k, items), p)
  {
    if k.uniqueItems {
      var unique := seq(|items|, i requires 0 <= i < |items| => !RepeatedLater(items, i));
      ChecksHold(leak, s, rank, n, x, UniquePart(k, items), unique, p);
      forall i, j | 0 <= i < j < |items|
        ensures Same(items[i], items[j]) <==> DeepEqual(items[i], items[j])
        ensures Same(items[i], items[j]) ==> !unique[i]
      {
        DeepEqualIsStructural(items[i], items[j]);
      }
    }
  }

  lemma WithinHolds(leak: bool, s: Schema, rank: seq<nat>, n: nat, x: Json, size: nat, low: Option<nat>,
                    high: Option<nat>, p: Place)
    requires ReadyActions(s, rank, n, x, Within(size, low, high))
    ensures AllHold(leak, s, rank, n, x, Within(size, low, high)) <==> InRange(size, low, high)
    ensures !EvaluatedBy(leak, s, rank, n, x, Within(size, low, high), p)
  {
    var holds := [low.None? || low.value <= size, high.None? || size <= high.value];
    ChecksHold(leak, s, rank, n, x, Within(size, low, high), holds, p);
    assert (forall i :: 0 <= i < 2 ==> holds[i]) <==> holds[0] && holds[1];
  }

  lemma ContainsPartHolds(leak: bool, s: Schema, rank: seq<nat>, n: nat, x: Json, k: Keywords, items: seq<Json>,
                          p: Place)
    requires ReadyActions(s, rank, n, x, ContainsPart(k, items))
    ensures AllHold(leak, s, rank, n, x, ContainsPart(k, items)) <==> CountMeaning(leak, s, rank, k, items)
    ensures EvaluatedBy(leak, s, rank, n, x, ContainsPart(k, items), p) <==>
            && k.contains.Some? && p.Item? && p.index < |items| && Sat(leak, s, rank, k.contains.value, items[p.index])
  {
    if k.contains.Some? {
      var act := ContainsPart(k, items)[0];
      OnlyHolds(leak, s, rank, n, x, act, p);
      ContainsHolds(leak, s, rank, n, x, act, p);
    }
  }

  lemma ArrayHolds(leak: bool, s: Schema, rank: seq<nat>, n: nat, x: Json, k: Keywords, items: seq<Json>, p: Place)
    requires ReadyActions(s, rank, n, x, ArrayPart(k, items))
    ensures AllHold(leak, s, rank, n, x, ArrayPart(k, items)) <==> ArrayMeaning(leak, s, rank, k, items)
    ensures EvaluatedBy(leak, s, rank, n, x, ArrayPart(k, items), p) <==> ArrayPlace(leak, s, rank, k, items, p)
  {
    var size, unique := Within(|items|, k.minItems, k.maxItems), UniquePart(k, items);
    var elements, contains := PrefixPart(k, items) + ItemsPart(k, items), ContainsPart(k, items);
    FourPartsHold(leak, s, rank, n, x, size, unique, elements, contains, p);
    WithinHolds(leak, s, rank, n, x, |items|, k.minItems, k.maxItems, p);
    UniqueHolds(leak, s, rank, n, x, k, items, p);
    ElementsHold(leak, s, rank, n, x, k, items, p);
    ContainsPartHolds(leak, s, rank, n, x, k, items, p);
  }

  // Objects

  lemma RequiredHolds(leak: bool, s: Schema, rank: seq<nat>, n: nat, x: Json, required: seq<Text>, m: map<Text, Json>,
                      p: Place)
    requires ReadyActions(s, rank, n, x, RequiredPart(required, m))
    ensures AllHold(leak, s, rank, n, x, RequiredPart(required, m)) <==>
            forall i :: 0 <= i < |required| ==> required[i] in m
    ensures !EvaluatedBy(leak, s, rank, n, x, RequiredPart(required, m), p)
  {
    var present := seq(|required|, i requires 0 <= i < |required| => required[i] in m);
    ChecksHold(leak, s, rank, n, x, RequiredPart(required, m), present, p);
    assert forall i :: 0 <= i < |required| ==> (present[i] <==> required[i] in m);
  }

  lemma {:induction false} DependentRequiredHolds(leak: bool, s: Schema, rank: seq<nat>, n: nat, x: Json,
                                                  required: seq<(Text, seq<Text>)>, m: map<Text, Json>, p: Place)
    requires ReadyActions(s, rank, n, x, DependentRequiredPart(required, m))
    ensures AllHold(leak, s, rank, n, x, DependentRequiredPart(required, m)) <==> DependenciesMet(required, m)
    ensures !EvaluatedBy(leak, s, rank, n, x, DependentRequiredPart(required, m), p)
  {
    if required != [] {
      var first := if required[0].0 in m then RequiredPart(required[0].1, m) else [];
      var rest := required[1..];
      PartsHold(leak, s, rank, n, x, first, DependentRequiredPart(rest, m), p);
      RequiredHolds(leak, s, rank, n, x, if required[0].0 in m then required[0].1 else [], m, p);
      DependentRequiredHolds(leak, s, rank, n, x, rest, m, p);
      assert required == [required[0]] + rest;
      assert DependenciesMet(required, m) <==> DependenciesMet([required[0]], m) && DependenciesMet(rest, m);
    }
  }

  lemma AdditionalHolds(leak: bool, s: Schema, rank: seq<nat>, n: nat, x: Json, k: Keywords, name: Text, value: Json,
                        p: Place)
    requires BooleanKnown(s, k) && ReadyActions(s, rank, n, x, AdditionalPart(k, name, value))
    requires Ready(s, rank, n) && (k.additionalProperties.Some? ==> k.additionalProperties.value < |rank|)
    ensures AllHold(leak, s, rank, n, x, AdditionalPart(k, name, value)) <==>
            (k.additionalProperties.Some? && Unnamed(k, name) ==>
               Sat(leak, s, rank, k.additionalProperties.value, value))
    ensures !EvaluatedBy(leak, s, rank, n, x, AdditionalPart(k, name, value), p)
  {
    var part := AdditionalPart(k, name, value);
    if part != [] {
      OnlyHolds(leak, s, rank, n, x, part[0], p);
    }
  }

  lemma PatternsHold(leak: bool, s: Schema, rank: seq<nat>, n: nat, x: Json, k: Keywords, name: Text, value: Json,
                     p: Place)
    requires ReadyActions(s, rank, n, x, PatternsPart(k, name, value))
    ensures AllHold(leak, s, rank, n, x, PatternsPart(k, name, value)) <==>
            forall i :: 0 <= i < |k.patternProperties| && k.patternProperties[i].0(name) ==>
                          Sat(leak, s, rank, k.patternProperties[i].1, value)
    ensures !EvaluatedBy(leak, s, rank, n, x, PatternsPart(k, name, value), p)
  {
    var part := PatternsPart(k, name, value);
    forall i | 0 <= i < |part|
      ensures SatisfiesAction(leak, s, rank, n, x, part[i]) <==>
              (k.patternProperties[i].0(name) ==> Sat(leak, s, rank, k.patternProperties[i].1, value))
      ensures !MarkedBy(leak, s, rank, n, x, part[i], p)
    {
      assert part[i] == PatternVisit(k, name, value, i);
    }
  }

  lemma NamedHolds(leak: bool, s: Schema, rank: seq<nat>, n: nat, x: Json, k: Keywords, name: Text, value: Json,
                   p: Place)
    requires ReadyActions(s, rank, n, x, NamedPart(k, name, value))
    ensures AllHold(leak, s, rank, n, x, NamedPart(k, name, value)) <==>
            (name in k.properties ==> Sat(leak, s, rank, k.properties[name], value))
    ensures !EvaluatedBy(leak, s, rank, n, x, NamedPart(k, name, value), p)
  {
    if name in k.properties {
      var visit := Visit(k.properties[name], value, [Property(name)], true);
      OnlyHolds(leak, s, rank, n, x, visit, p);
      VisitHolds(leak, s, rank, n, x, visit, p);
    }
  }

  lemma MemberHolds(leak: bool, s: Schema, rank: seq<nat>, n: nat, x: Json, k: Keywords, name: Text, value: Json,
                    p: Place)
    requires BooleanKnown(s, k) && ReadyActions(s, rank, n, x, MemberPart(k, name, value))
    requires k.additionalProperties.Some? ==> k.additionalProperties.value < |rank|
    ensures AllHold(leak, s, rank, n, x, MemberPart(k, name, value)) <==> MemberMeaning(leak, s, rank, k, name, value)
    ensures EvaluatedBy(leak, s, rank, n, x, MemberPart(k, name, value), p) <==>
            p == Property(name) && (!Unnamed(k, name) || k.additionalProperties.Some?)
  {
    var named, patterns := NamedPart(k, name, value), PatternsPart(k, name, value);
    var additional, mark := AdditionalPart(k, name, value), MarkOf(k, name);
    PartsHold(leak, s, rank, n, x, named + patterns, additional + [mark], p);
    PartsHold(leak, s, rank, n, x, named, patterns, p);
    PartsHold(leak, s, rank, n, x, additional, [mark], p);
    NamedHolds(leak, s, rank, n, x, k, name, value, p);
    PatternsHold(leak, s, rank, n, x, k, name, value, p);
    AdditionalHolds(leak, s, rank, n, x, k, name, value, p);
    OnlyHolds(leak, s, rank, n, x, mark, p);
    assert MarkedBy(leak, s, rank, n, x, mark, p) <==>
           p == Property(name) && (!Unnamed(k, name) || k.additionalProperties.Some?);
  }

  lemma GuardedMemberHolds(leak: bool, s: Schema, rank: seq<nat>, n: nat, x: Json, k: Keywords, name: Text,
                           value: Json, p: Place)
    requires BooleanKnown(s, k) && ReadyAction(s, rank, n, x, Guarded(MemberPart(k, name, value)))
    requires k.additionalProperties.Some? ==> k.additionalProperties.value < |rank|
    ensures var act := Guarded(MemberPart(k, name, value));
            && (SatisfiesAction(leak, s, rank, n, x, act) <==> MemberMeaning(leak, s, rank, k, name, value))
            && (MarkedBy(leak, s, rank, n, x, act, p) <==>
                p == Property(name) && (!Unnamed(k, name) || k.additionalProperties.Some?))
  {
    GuardedHolds(leak, s, rank, n, x, MemberPart(k, name, value), p);
    MemberHolds(leak, s, rank, n, x, k, name, value, p);
  }

  lemma MembersHold(leak: bool, s: Schema, rank: seq<nat>, n: nat, x: Json, k: Keywords, m: map<Text, Json>,
                    names: seq<Text>, p: Place)
    requires BooleanKnown(s, k) && Lists(names, m) && ReadyActions(s, rank, n, x, MembersPart(k, m, names))
    requires k.additionalProperties.Some? ==> k.additionalProperties.value < |rank|
    ensures AllHold(leak, s, rank, n, x, MembersPart(k, m, names)) <==>
            forall name :: name in m ==> MemberMeaning(leak, s, rank, k, name, m[name])
  {
    var part := MembersPart(k, m, names);
    forall i | 0 <= i < |names|
      ensures SatisfiesAction(leak, s, rank, n, x, part[i]) <==> MemberMeaning(leak, s, rank, k, names[i], m[names[i]])
    {
      assert ReadyAction(s, rank, n, x, part[i]);
      GuardedMemberHolds(leak, s, rank, n, x, k, names[i], m[names[i]], p);
    }
  }

  lemma MembersMark(leak: bool, s: Schema, rank: seq<nat>, n: nat, x: Json, k: Keywords, m: map<Text, Json>,
                    names: seq<Text>, p: Place)
    requires BooleanKnown(s, k) && Lists(names, m) && ReadyActions(s, rank, n, x, MembersPart(k, m, names))
    requires k.additionalProperties.Some? ==> k.additionalProperties.value < |rank|
    ensures EvaluatedBy(leak, s, rank, n, x, MembersPart(k, m, names), p) <==>
            p.Property? && p.name in m && (!Unnamed(k, p.name) || k.additionalProperties.Some?)
  {
    var part := MembersPart(k, m, names);
    forall i | 0 <= i < |names|
      ensures MarkedBy(leak, s, rank, n, x, part[i], p) <==>
              p == Property(names[i]) && (!Unnamed(k, names[i]) || k.additionalProperties.Some?)
    {
      assert ReadyAction(s, rank, n, x, part[i]);
      GuardedMemberHolds(leak, s, rank, n, x, k, names[i], m[names[i]], p);
    }
  }

  lemma NameHolds(leak: bool, s: Schema, rank: seq<nat>, n: nat, x: Json, child: nat, name: Text, p: Place)
    requires ReadyAction(s, rank, n, x, Guarded([Visit(child, Str(name), [], false)]))
    ensures var act := Guarded([Visit(child, Str(name), [], false)]);
            && (SatisfiesAction(leak, s, rank, n, x, act) <==> Sat(leak, s, rank, child, Str(name)))
            && (MarkedBy(leak, s, rank, n, x, act, p) <==> Evaluates(leak, s, rank, child, Str(name), p))
  {
    var visit := Visit(child, Str(name), [], false);
    GuardedHolds(leak, s, rank, n, x, [visit], p);
    OnlyHolds(leak, s, rank, n, x, visit, p);
    VisitHolds(leak, s, rank, n, x, visit, p);
  }

  lemma NamesHold(leak: bool, s: Schema, rank: seq<nat>, n: nat, x: Json, k: Keywords, m: map<Text, Json>,
                  names: seq<Text>, p: Place)
    requires Lists(names, m) && ReadyActions(s, rank, n, x, NamesPart(k, names))
    ensures AllHold(leak, s, rank, n, x, NamesPart(k, names)) <==>
            (k.propertyNames.Some? ==> forall name :: name in m ==>
               Sat(leak, s, rank, k.propertyNames.value, Str(name)))
  {
    var part := NamesPart(k, names);
    forall i | 0 <= i < |part|
      ensures SatisfiesAction(leak, s, rank, n, x, part[i]) <==>
              Sat(leak, s, rank, k.propertyNames.value, Str(names[i]))
    {
      assert ReadyAction(s, rank, n, x, part[i]);
      NameHolds(leak, s, rank, n, x, k.propertyNames.value, names[i], p);
    }
  }

  lemma NamesMark(leak: bool, s: Schema, rank: seq<nat>, n: nat, x: Json, k: Keywords, m: map<Text, Json>,
                  names: seq<Text>, p: Place)
    requires Lists(names, m) && ReadyActions(s, rank, n, x, NamesPart(k, names))
    ensures EvaluatedBy(leak, s, rank, n, x, NamesPart(k, names), p) <==>
            && k.propertyNames.Some?
            && exists name :: name in m && Evaluates(leak, s, rank, k.propertyNames.value, Str(name), p)
  {
    var part := NamesPart(k, names);
    if k.propertyNames.Some? {
      var child := k.propertyNames.value;
      forall i | 0 <= i < |names|
        ensures MarkedBy(leak, s, rank, n, x, part[i], p) <==> Evaluates(leak, s, rank, child, Str(names[i]), p)
      {
        assert ReadyAction(s, rank, n, x, part[i]);
        NameHolds(leak, s, rank, n, x, child, names[i], p);
      }
      assert EvaluatedBy(leak, s, rank, n, x, part, p) <==>
             exists i :: 0 <= i < |names| && Evaluates(leak, s, rank, child, Str(names[i]), p);
    }
  }

  lemma DependentHolds(leak: bool, s: Schema, rank: seq<nat>, n: nat, x: Json, k: Keywords, p: Place)
    requires x.Obj? && ReadyActions(s, rank, n, x, DependentPart(k, x))
    ensures AllHold(leak, s, rank, n, x, DependentPart(k, x)) <==>
            forall i :: 0 <= i < |k.dependentSchemas| && k.dependentSchemas[i].0 in x.members ==>
                          Sat(leak, s, rank, k.dependentSchemas[i].1, x)
    ensures EvaluatedBy(leak, s, rank, n, x, DependentPart(k, x), p) <==>
            exists i :: && 0 <= i < |k.dependentSchemas| && k.dependentSchemas[i].0 in x.members
                        && Evaluates(leak, s, rank, k.dependentSchemas[i].1, x, p)
  {
    var part := DependentPart(k, x);
    forall i | 0 <= i < |part|
      ensures SatisfiesAction(leak, s, rank, n, x, part[i]) <==>
              (k.dependentSchemas[i].0 in x.members ==> Sat(leak, s, rank, k.dependentSchemas[i].1, x))
      ensures MarkedBy(leak, s, rank, n, x, part[i], p) <==>
              k.dependentSchemas[i].0 in x.members && Evaluates(leak, s, rank, k.dependentSchemas[i].1, x, p)
    {
      assert ReadyAction(s, rank, n, x, part[i]);
    }
  }

  /** The walk over the members: their names, then their values. */
  lemma WalkHolds(leak: bool, s: Schema, rank: seq<nat>, n: nat, x: Json, k: Keywords, m: map<Text, Json>,
                  names: seq<Text>, p: Place)
    requires BooleanKnown(s, k) && Lists(names, m)
    requires k.additionalProperties.Some? ==> k.additionalProperties.value < |rank|
    requires ReadyActions(s, rank, n, x, NamesPart(k, names) + MembersPart(k, m, names))
    ensures AllHold(leak, s, rank, n, x, NamesPart(k, names) + MembersPart(k, m, names)) <==>
            && (k.propertyNames.Some? ==> forall name :: name in m ==>
                  Sat(leak, s, rank, k.propertyNames.value, Str(name)))
            && (forall name :: name in m ==> MemberMeaning(leak, s, rank, k, name, m[name]))
    ensures EvaluatedBy(leak, s, rank, n, x, NamesPart(k, names) + MembersPart(k, m, names), p) <==>
            || (k.propertyNames.Some?
                && exists name :: name in m && Evaluates(leak, s, rank, k.propertyNames.value, Str(name), p))
            || (p.Property? && p.name in m && (!Unnamed(k, p.name) || k.additionalProperties.Some?))
  {
    PartsHold(leak, s, rank, n, x, NamesPart(k, names), MembersPart(k, m, names), p);
    NamesHold(leak, s, rank, n, x, k, m, names, p);
    NamesMark(leak, s, rank, n, x, k, m, names, p);
    MembersHold(leak, s, rank, n, x, k, m, names, p);
    MembersMark(leak, s, rank, n, x, k, m, names, p);
  }

  lemma ObjectHolds(leak: bool, s: Schema, rank: seq<nat>, n: nat, x: Json, k: Keywords, names: seq<Text>, p: Place)
    requires x.Obj? && BooleanKnown(s, k) && Ready(s, rank, n) && Lists(names, x.members)
    requires k.additionalProperties.Some? ==> k.additionalProperties.value < |rank|
    requires ReadyActions(s, rank, n, x, ObjectPart(k, x, names))
    ensures AllHold(leak, s, rank, n, x, ObjectPart(k, x, names)) <==> ObjectMeaning(leak, s, rank, k, x)
    ensures EvaluatedBy(leak, s, rank, n, x, ObjectPart(k, x, names), p) <==> ObjectPlace(leak, s, rank, k, x, p)
  {
    var m := x.members;
    var size, required := Within(|m|, k.minProperties, k.maxProperties), RequiredPart(k.required, m);
    var walk := NamesPart(k, names) + MembersPart(k, m, names);
    var dependent := DependentRequiredPart(k.dependentRequired, m) + DependentPart(k, x);
    FourPartsHold(leak, s, rank, n, x, size, required, walk, dependent, p);
    WalkHolds(leak, s, rank, n, x, k, m, names, p);
    PartsHold(leak, s, rank, n, x, DependentRequiredPart(k.dependentRequired, m), DependentPart(k, x), p);
    WithinHolds(leak, s, rank, n, x, |m|, k.minProperties, k.maxProperties, p);
    RequiredHolds(leak, s, rank, n, x, k.required, m, p);
    DependentRequiredHolds(leak, s, rank, n, x, k.dependentRequired, m, p);
    DependentHolds(leak, s, rank, n, x, k, p);
  }

  // Combinators

  lemma AllOfHolds(leak: bool, s: Schema, rank: seq<nat>, n: nat, x: Json, k: Keywords, p: Place)
    requires ReadyActions(s, rank, n, x, AllOfPart(k, x))
    ensures AllHold(leak, s, rank, n, x, AllOfPart(k, x)) <==>
            forall i :: 0 <= i < |k.allOf| ==> Sat(leak, s, rank, k.allOf[i], x)
    ensures EvaluatedBy(leak, s, rank, n, x, AllOfPart(k, x), p) <==>
            exists i :: 0 <= i < |k.allOf| && Evaluates(leak, s, rank, k.allOf[i], x, p)
  {
    var part := AllOfPart(k, x);
    forall i | 0 <= i < |part|
      ensures SatisfiesAction(leak, s, rank, n, x, part[i]) <==> Sat(leak, s, rank, k.allOf[i], x)
      ensures MarkedBy(leak, s, rank, n, x, part[i], p) <==> Evaluates(leak, s, rank, k.allOf[i], x, p)
    {
      var visit := Visit(k.allOf[i], x, [], false);
      assert part[i] == Guarded([visit]);
      GuardedHolds(leak, s, rank, n, x, [visit], p);
      OnlyHolds(leak, s, rank, n, x, visit, p);
      VisitHolds(leak, s, rank, n, x, visit, p);
    }
  }

  lemma AnyOfHolds(leak: bool, s: Schema, rank: seq<nat>, n: nat, x: Json, children: seq<nat>, p: Place)
    requires ReadyAction(s, rank, n, x, AnyOf(children))
    ensures SatisfiesAction(leak, s, rank, n, x, AnyOf(children)) <==> SomeSat(leak, s, rank, children, x)
    ensures MarkedBy(leak, s, rank, n, x, AnyOf(children), p) <==> ChoicePlace(leak, s, rank, children, x, p)
  {
    forall i | 0 <= i < |children|
      ensures Satisfies(leak, s, rank, children[i], x) <==> Sat(leak, s, rank, children[i], x)
      ensures Contributes(leak, s, rank, n, x, children[i], p) <==>
              Sat(leak, s, rank, children[i], x) && Evaluates(leak, s, rank, children[i], x, p)
    {
    }
  }

  lemma OneOfHolds(leak: bool, s: Schema, rank: seq<nat>, n: nat, x: Json, children: seq<nat>, p: Place)
    requires ReadyAction(s, rank, n, x, OneOf(children))
    ensures SatisfiesAction(leak, s, rank, n, x, OneOf(children)) <==> OneSat(leak, s, rank, children, x)
    ensures MarkedBy(leak, s, rank, n, x, OneOf(children), p) <==> ChoicePlace(leak, s, rank, children, x, p)
  {
    forall i | 0 <= i < |children|
      ensures OnlyChild(leak, s, rank, n, x, children, i) <==> OnlySat(leak, s, rank, children, x, i)
      ensures Contributes(leak, s, rank, n, x, children[i], p) <==>
              Sat(leak, s, rank, children[i], x) && Evaluates(leak, s, rank, children[i], x, p)
    {
      assert forall j :: 0 <= j < |children| ==>
               (Satisfies(leak, s, rank, children[j], x) <==> Sat(leak, s, rank, children[j], x));
    }
  }

  lemma AnyOfPartHolds(leak: bool, s: Schema, rank: seq<nat>, n: nat, x: Json, k: Keywords, p: Place)
    requires ReadyActions(s, rank, n, x, AnyOfPart(k))
    ensures AllHold(leak, s, rank, n, x, AnyOfPart(k)) <==> (k.anyOf != [] ==> SomeSat(leak, s, rank, k.anyOf, x))
    ensures EvaluatedBy(leak, s, rank, n, x, AnyOfPart(k), p) <==> ChoicePlace(leak, s, rank, k.anyOf, x, p)
  {
    if k.anyOf != [] {
      OnlyHolds(leak, s, rank, n, x, AnyOf(k.anyOf), p);
      AnyOfHolds(leak, s, rank, n, x, k.anyOf, p);
    }
  }

  lemma OneOfPartHolds(leak: bool, s: Schema, rank: seq<nat>, n: nat, x: Json, k: Keywords, p: Place)
    requires ReadyActions(s, rank, n, x, OneOfPart(k))
    ensures AllHold(leak, s, rank, n, x, OneOfPart(k)) <==> (k.oneOf != [] ==> OneSat(leak, s, rank, k.oneOf, x))
    ensures EvaluatedBy(leak, s, rank, n, x, OneOfPart(k), p) <==> ChoicePlace(leak, s, rank, k.oneOf, x, p)
  {
    if k.oneOf != [] {
      OnlyHolds(leak, s, rank, n, x, OneOf(k.oneOf), p);
      OneOfHolds(leak, s, rank, n, x, k.oneOf, p);
    }
  }

  lemma IfHolds(leak: bool, s: Schema, rank: seq<nat>, n: nat, x: Json, k: Keywords, p: Place)
    requires ReadyActions(s, rank, n, x, IfPart(k))
    ensures AllHold(leak, s, rank, n, x, IfPart(k)) <==> ConditionMeaning(leak, s, rank, k, x)
    ensures EvaluatedBy(leak, s, rank, n, x, IfPart(k), p) <==> ConditionPlace(leak, s, rank, k, x, p)
  {
    if k.ifSchema.Some? {
      OnlyHolds(leak, s, rank, n, x, IfThenElse(k.ifSchema.value, k.thenSchema, k.elseSchema), p);
    }
  }

  lemma NotHolds(leak: bool, s: Schema, rank: seq<nat>, n: nat, x: Json, k: Keywords, p: Place)
    requires ReadyActions(s, rank, n, x, NotPart(k))
    ensures AllHold(leak, s, rank, n, x, NotPart(k)) <==>
            (k.notSchema.Some? ==> !Sat(leak, s, rank, k.notSchema.value, x))
    ensures !EvaluatedBy(leak, s, rank, n, x, NotPart(k), p)
  {
    if k.notSchema.Some? {
      OnlyHolds(leak, s, rank, n, x, Not(k.notSchema.value), p);
    }
  }

  /** anyOf, oneOf, not and if. */
  lemma TriedHold(leak: bool, s: Schema, rank: seq<nat>, n: nat, x: Json, k: Keywords, p: Place)
    requires ReadyActions(s, rank, n, x, AnyOfPart(k) + OneOfPart(k) + (NotPart(k) + IfPart(k)))
    ensures AllHold(leak, s, rank, n, x, AnyOfPart(k) + OneOfPart(k) + (NotPart(k) + IfPart(k))) <==>
            && (k.anyOf != [] ==> SomeSat(leak, s, rank, k.anyOf, x))
            && (k.oneOf != [] ==> OneSat(leak, s, rank, k.oneOf, x))
            && (k.notSchema.Some? ==> !Sat(leak, s, rank, k.notSchema.value, x))
            && ConditionMeaning(leak, s, rank, k, x)
    ensures EvaluatedBy(leak, s, rank, n, x, AnyOfPart(k) + OneOfPart(k) + (NotPart(k) + IfPart(k)), p) <==>
            || ChoicePlace(leak, s, rank, k.anyOf, x, p) || ChoicePlace(leak, s, rank, k.oneOf, x, p)
            || ConditionPlace(leak, s, rank, k, x, p)
  {
    FourPartsHold(leak, s, rank, n, x, AnyOfPart(k), OneOfPart(k), NotPart(k), IfPart(k), p);
    AnyOfPartHolds(leak, s, rank, n, x, k, p);
    OneOfPartHolds(leak, s, rank, n, x, k, p);
    NotHolds(leak, s, rank, n, x, k, p);
    IfHolds(leak, s, rank, n, x, k, p);
  }

  lemma CombinatorsHold(leak: bool, s: Schema, rank: seq<nat>, n: nat, x: Json, k: Keywords, p: Place)
    requires ReadyActions(s, rank, n, x, CombinatorPart(k, x))
    ensures AllHold(leak, s, rank, n, x, CombinatorPart(k, x)) <==> CombinatorMeaning(leak, s, rank, k, x)
    ensures EvaluatedBy(leak, s, rank, n, x, CombinatorPart(k, x), p) <==> CombinatorPlace(leak, s, rank, k, x, p)
  {
    PartsHold(leak, s, rank, n, x, AllOfPart(k, x), AnyOfPart(k) + OneOfPart(k) + (NotPart(k) + IfPart(k)), p);
    AllOfHolds(leak, s, rank, n, x, k, p);
    TriedHold(leak, s, rank, n, x, k, p);
  }

  // The whole node

  lemma TypeSpecificHolds(leak: bool, s: Schema, rank: seq<nat>, n: nat, x: Json, k: Keywords, names: seq<Text>,
                          p: Place)
    requires BooleanKnown(s, k) && Ready(s, rank, n) && (x.Obj? ==> Lists(names, x.members))
    requires k.additionalProperties.Some? ==> k.additionalProperties.value < |rank|
    requires ReadyActions(s, rank, n, x, TypeSpecificPart(k, x, names))
    ensures AllHold(leak, s, rank, n, x, TypeSpecificPart(k, x, names)) <==> TypeSpecificMeaning(leak, s, rank, k, x)
    ensures EvaluatedBy(leak, s, rank, n, x, TypeSpecificPart(k, x, names), p) <==>
            TypeSpecificPlace(leak, s, rank, k, x, p)
  {
    match x
    case Arr(items) => ArrayHolds(leak, s, rank, n, x, k, items, p);
    case Obj(_) => ObjectHolds(leak, s, rank, n, x, k, names, p);
    case _ =>
      var part := ScalarPart(k, x);
      assert part != [] ==> !SatisfiesAction(leak, s, rank, n, x, part[0]);
  }

  /** The plan compares normalised values. */
  lemma ValuesAllowed(k: Keywords, x: Json)
    ensures ValueMeaning(k, x) <==>
            !k.typeFails(x) && Allowed(k, x) && (k.constValue.Some? ==> Same(x, k.constValue.value))
  {
    if k.enumValues.Some? {
      forall i | 0 <= i < |k.enumValues.value|
        ensures Same(x, k.enumValues.value[i]) <==> DeepEqual(x, k.enumValues.value[i])
      {
        DeepEqualIsStructural(x, k.enumValues.value[i]);
      }
    }
    if k.constValue.Some? {
      DeepEqualIsStructural(x, k.constValue.value);
    }
  }

  lemma ValuesHold(leak: bool, s: Schema, rank: seq<nat>, n: nat, x: Json, k: Keywords, p: Place)
    requires ReadyActions(s, rank, n, x, ValuePart(k, x))
    ensures AllHold(leak, s, rank, n, x, ValuePart(k, x)) <==> ValueMeaning(k, x)
    ensures !EvaluatedBy(leak, s, rank, n, x, ValuePart(k, x), p)
  {
    var holds := [!k.typeFails(x), Allowed(k, x), k.constValue.Some? ==> Same(x, k.constValue.value)];
    ChecksHold(leak, s, rank, n, x, ValuePart(k, x), holds, p);
    assert (forall i :: 0 <= i < 3 ==> holds[i]) <==> holds[0] && holds[1] && holds[2];
    ValuesAllowed(k, x);
  }

  /** The actions before unevaluatedProperties / unevaluatedItems. */
  function FrontWith(k: Keywords, x: Json, names: seq<Text>): seq<Action>
    requires x.Obj? ==> forall i :: 0 <= i < |names| ==> names[i] in x.members
  {
    ValuePart(k, x) + [Guarded(TypeSpecificPart(k, x, names)), Guarded(CombinatorPart(k, x))]
  }

  /** What the keywords other than unevaluated* say. */
  ghost predicate MeaningBeside(leak: bool, s: Schema, rank: seq<nat>, k: Keywords, x: Json) {
    && ValueMeaning(k, x)
    && TypeSpecificMeaning(leak, s, rank, k, x)
    && CombinatorMeaning(leak, s, rank, k, x)
  }

  lemma FrontHolds(leak: bool, s: Schema, rank: seq<nat>, n: nat, x: Json, k: Keywords, names: seq<Text>, p: Place)
    requires BooleanKnown(s, k) && Ready(s, rank, n) && (x.Obj? ==> Lists(names, x.members))
    requires k.additionalProperties.Some? ==> k.additionalProperties.value < |rank|
    requires ReadyActions(s, rank, n, x, FrontWith(k, x, names))
    ensures AllHold(leak, s, rank, n, x, FrontWith(k, x, names)) <==> MeaningBeside(leak, s, rank, k, x)
    ensures EvaluatedBy(leak, s, rank, n, x, FrontWith(k, x, names), p) <==> EvaluatedBeside(leak, s, rank, k, x, p)
  {
    var specific, combined := TypeSpecificPart(k, x, names), CombinatorPart(k, x);
    assert [Guarded(specific)] + [Guarded(combined)] == [Guarded(specific), Guarded(combined)];
    PartsHold(leak, s, rank, n, x, ValuePart(k, x), [Guarded(specific)] + [Guarded(combined)], p);
    PartsHold(leak, s, rank, n, x, [Guarded(specific)], [Guarded(combined)], p);
    ValuesHold(leak, s, rank, n, x, k, p);
    OnlyHolds(leak, s, rank, n, x, Guarded(specific), p);
    OnlyHolds(leak, s, rank, n, x, Guarded(combined), p);
    GuardedHolds(leak, s, rank, n, x, specific, p);
    GuardedHolds(leak, s, rank, n, x, combined, p);
    TypeSpecificHolds(leak, s, rank, n, x, k, names, p);
    CombinatorsHold(leak, s, rank, n, x, k, p);
  }

  // ---------------------------------------------------------------------
  // Compiled schema objects
  // ---------------------------------------------------------------------

  predicate AllBefore(children: seq<nat>, n: nat) {
    forall i :: 0 <= i < |children| ==> children[i] < n
  }

  predicate Before(child: Option<nat>, n: nat) {
    child.Some? ==> child.value < n
  }

  /** A node is added to the graph after the nodes of its subschemas. */
  predicate ChildrenFirst(k: Keywords, n: nat) {
    && AllBefore(k.prefixItems, n) && Before(k.items, n) && Before(k.contains, n)
    && Before(k.propertyNames, n) && Before(k.additionalProperties, n)
    && (forall name :: name in k.properties ==> k.properties[name] < n)
    && (forall i :: 0 <= i < |k.patternProperties| ==> k.patternProperties[i].1 < n)
    && (forall i :: 0 <= i < |k.dependentSchemas| ==> k.dependentSchemas[i].1 < n)
    && AllBefore(k.allOf, n) && AllBefore(k.anyOf, n) && AllBefore(k.oneOf, n)
    && Before(k.notSchema, n) && Before(k.ifSchema, n) && Before(k.thenSchema, n) && Before(k.elseSchema, n)
    && Before(k.unevaluatedProperties, n) && Before(k.unevaluatedItems, n)
  }

  /** Node `n` is the compiled form of the keywords. */
  ghost predicate Compiled(s: Schema, n: nat, k: Keywords, order: MemberOrder) {
    && n < |s.nodes| && s.nodes[n].ObjectSchema? && s.nodes[n] == NodeOf(k, order, s.nodes[n].selfIndex)
    && ChildrenFirst(k, n) && BooleanKnown(s, k) && Enumerates(order)
  }

  lemma FrontAndBack(k: Keywords, x: Json, names: seq<Text>)
    requires x.Obj? ==> forall i :: 0 <= i < |names| ==> names[i] in x.members
    ensures var acts := PlanWith(k, x, names);
            && Front(acts, k.NeedsTracker()) ==
               (if k.NeedsTracker() then FrontWith(k, x, names) else FrontWith(k, x, names) + [Guarded([])])
            && Back(acts, k.NeedsTracker()) == UnevaluatedPart(k, x, names)
            && acts == FrontWith(k, x, names) + [Guarded(UnevaluatedPart(k, x, names))]
  {
    assert PlanWith(k, x, names) == FrontWith(k, x, names) + [Guarded(UnevaluatedPart(k, x, names))];
  }

  /** The front of a plan, whether or not an empty last phase belongs to it. */
  lemma FrontMeans(leak: bool, s: Schema, rank: seq<nat>, n: nat, x: Json, k: Keywords, names: seq<Text>,
                   front: seq<Action>, p: Place)
    requires BooleanKnown(s, k) && Ready(s, rank, n) && (x.Obj? ==> Lists(names, x.members))
    requires k.additionalProperties.Some? ==> k.additionalProperties.value < |rank|
    requires front == FrontWith(k, x, names) || front == FrontWith(k, x, names) + [Guarded([])]
    requires ReadyActions(s, rank, n, x, front)
    ensures AllHold(leak, s, rank, n, x, front) <==> MeaningBeside(leak, s, rank, k, x)
    ensures EvaluatedBy(leak, s, rank, n, x, front, p) <==> EvaluatedBeside(leak, s, rank, k, x, p)
  {
    if front == FrontWith(k, x, names) + [Guarded([])] {
      PartsHold(leak, s, rank, n, x, FrontWith(k, x, names), [Guarded([])], p);
      OnlyHolds(leak, s, rank, n, x, Guarded([]), p);
    }
    FrontHolds(leak, s, rank, n, x, k, names, p);
  }

  lemma BackHolds(s: Schema, rank: seq<nat>, n: nat, x: Json, k: Keywords, names: seq<Text>, front: seq<Action>)
    requires ReadyActions(s, rank, n, x, front) && (x.Obj? ==> Lists(names, x.members))
    requires ReadyBack(s, rank, n, x, UnevaluatedPart(k, x, names))
    requires forall p :: EvaluatedBy(false, s, rank, n, x, front, p) <==> EvaluatedBeside(false, s, rank, k, x, p)
    ensures var back := UnevaluatedPart(k, x, names);
            SatisfiesBack(false, s, rank, n, x, front, back, 0) <==> UnevaluatedMeaning(s, rank, k, x)
  {
    var back := UnevaluatedPart(k, x, names);
    forall i | 0 <= i < |back|
      ensures SatisfiesOrSeen(false, s, rank, n, x, front, back, i) <==>
              EvaluatedBeside(false, s, rank, k, x, back[i].place) ||
              Sat(false, s, rank, back[i].child, back[i].instance)
    {
      SeenWithoutLeak(s, rank, n, x, front, back, i, back[i].place);
      assert EvaluatedBy(false, s, rank, n, x, front, back[i].place) <==>
             EvaluatedBeside(false, s, rank, k, x, back[i].place);
    }
    if x.Obj? && k.unevaluatedProperties.Some? {
      assert forall i :: 0 <= i < |names| ==>
          back[i] == Unevaluated(Property(names[i]), k.unevaluatedProperties.value, x.members[names[i]]);
      assert forall name :: name in x.members ==> exists i :: 0 <= i < |names| && names[i] == name;
    } else if x.Arr? && k.unevaluatedItems.Some? {
      assert forall i :: 0 <= i < |x.items| ==> back[i] == Unevaluated(Item(i), k.unevaluatedItems.value, x.items[i]);
    }
  }

  lemma PlacesOfBack(k: Keywords, x: Json, names: seq<Text>, p: Place)
    requires x.Obj? ==> Lists(names, x.members)
    ensures var back := UnevaluatedPart(k, x, names);
            (exists i :: 0 <= i < |back| && back[i].Unevaluated? && back[i].place == p) <==>
            || (x.Obj? && k.unevaluatedProperties.Some? && p.Property? && p.name in x.members)
            || (x.Arr? && k.unevaluatedItems.Some? && p.Item? && p.index < |x.items|)
  {
    var back := UnevaluatedPart(k, x, names);
    if x.Obj? && k.unevaluatedProperties.Some? && p.Property? && p.name in x.members {
      var i :| 0 <= i < |names| && names[i] == p.name;
      assert back[i].place == p;
    }
    if x.Arr? && k.unevaluatedItems.Some? && p.Item? && p.index < |x.items| {
      assert back[p.index].place == p;
    }
  }

  lemma CompiledPlan(s: Schema, n: nat, x: Json, k: Keywords, order: MemberOrder) returns (names: seq<Text>)
    requires Compiled(s, n, k, order)
    ensures x.Obj? ==> Lists(names, x.members) && names == order(x.members)
    ensures s.nodes[n].plan(x) == PlanWith(k, x, names) && s.nodes[n].tracked == k.NeedsTracker()
  {
    names := if x.Obj? then order(x.members) else [];
    assert x.Obj? ==> Lists(names, x.members);
    assert s.nodes[n].plan(x) == Plan(k, order, x);
  }

  lemma WholeFrontMeans(leak: bool, s: Schema, rank: seq<nat>, n: nat, x: Json, k: Keywords, names: seq<Text>,
                        front: seq<Action>)
    requires BooleanKnown(s, k) && Ready(s, rank, n) && (x.Obj? ==> Lists(names, x.members))
    requires k.additionalProperties.Some? ==> k.additionalProperties.value < |rank|
    requires front == FrontWith(k, x, names) || front == FrontWith(k, x, names) + [Guarded([])]
    requires ReadyActions(s, rank, n, x, front)
    ensures AllHold(leak, s, rank, n, x, front) <==> MeaningBeside(leak, s, rank, k, x)
    ensures forall p :: EvaluatedBy(leak, s, rank, n, x, front, p) <==> EvaluatedBeside(leak, s, rank, k, x, p)
  {
    FrontMeans(leak, s, rank, n, x, k, names, front, Item(0));
    forall p
      ensures EvaluatedBy(leak, s, rank, n, x, front, p) <==> EvaluatedBeside(leak, s, rank, k, x, p)
    {
      FrontMeans(leak, s, rank, n, x, k, names, front, p);
    }
  }

  /** The reading of a compiled schema object, with or without the leak, from its keywords and its back. */
  lemma ReadingByKeywords(leak: bool, s: Schema, rank: seq<nat>, n: nat, x: Json, k: Keywords, order: MemberOrder)
    returns (names: seq<Text>, front: seq<Action>, back: seq<Action>)
    requires Ready(s, rank, n) && Compiled(s, n, k, order)
    ensures x.Obj? ==> Lists(names, x.members) && names == order(x.members)
    ensures back == UnevaluatedPart(k, x, names)
    ensures ReadyActions(s, rank, n, x, front) && ReadyBack(s, rank, n, x, back)
    ensures forall p :: EvaluatedBy(leak, s, rank, n, x, front, p) <==> EvaluatedBeside(leak, s, rank, k, x, p)
    ensures Satisfies(leak, s, rank, n, x) <==>
            MeaningBeside(leak, s, rank, k, x) && SatisfiesBack(leak, s, rank, n, x, front, back, 0)
    ensures forall p :: EvaluatedAt(leak, s, rank, n, x, p) <==> Seen(leak, s, rank, n, x, front, back, |back|, p)
  {
    names := CompiledPlan(s, n, x, k, order);
    var acts, tracked := s.nodes[n].plan(x), s.nodes[n].tracked;
    front, back := Front(acts, tracked), Back(acts, tracked);
    FrontAndBack(k, x, names);
    SatisfiesByParts(leak, s, rank, n, x);
    WholeFrontMeans(leak, s, rank, n, x, k, names, front);
  }

  /** On a compiled schema object, satisfaction is what the keywords say. */
  lemma SatisfiesIsMeaning(s: Schema, rank: seq<nat>, n: nat, x: Json, k: Keywords, order: MemberOrder)
    requires Ready(s, rank, n) && Compiled(s, n, k, order)
    ensures Satisfies(false, s, rank, n, x) <==> KeywordMeaning(s, rank, k, x)
  {
    var names, front, back := ReadingByKeywords(false, s, rank, n, x, k, order);
    BackHolds(s, rank, n, x, k, names, front);
  }

  /** The places it evaluates are those the keywords evaluate. */
  lemma EvaluatedIsPlace(s: Schema, rank: seq<nat>, n: nat, x: Json, k: Keywords, order: MemberOrder, p: Place)
    requires Ready(s, rank, n) && Compiled(s, n, k, order)
    ensures EvaluatedAt(false, s, rank, n, x, p) <==> KeywordPlace(s, rank, k, x, p)
  {
    var names, front, back := ReadingByKeywords(false, s, rank, n, x, k, order);
    SeenWithoutLeak(s, rank, n, x, front, back, |back|, p);
    PlacesOfBack(k, x, names, p);
  }
}
