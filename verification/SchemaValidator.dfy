/** The validator's recursion over its mutable context: guards, tracker swaps, probes. */
module SchemaValidator {
  import opened JsonValue
  import opened SchemaGraph

  class EvaluationTracker {
    var places: set<Place>

    constructor ()
      ensures places == {}
    {
      places := {};
    }

    method Add(more: set<Place>)
      modifies this
      ensures places == old(places) + more
    {
      places := places + more;
    }
  }

  class ValidateContext {
    const schema: Schema
    const stopOnFirstError: bool
    var errors: seq<ValidationError>
    var tracker: EvaluationTracker?
    var dynamicScope: Scope
    var activeRefs: seq<(nat, Path)>

    constructor (schema: Schema, stopOnFirstError: bool, tracker: EvaluationTracker?)
      ensures this.schema == schema && this.stopOnFirstError == stopOnFirstError && this.tracker == tracker
      ensures errors == [] && dynamicScope == [] && activeRefs == []
    {
      this.schema := schema;
      this.stopOnFirstError := stopOnFirstError;
      this.tracker := tracker;
      errors, dynamicScope, activeRefs := [], [], [];
    }

    /** What a call changes. */
    ghost function Now(): State
      reads this, tracker
    {
      State(errors, if tracker == null then None else Some(tracker.places))
    }

    /** What a call sees, together with its instance and path. */
    ghost function Here(instance: Json, at: Path): Frame
      reads this
    {
      Frame(schema, stopOnFirstError, instance, at, dynamicScope, activeRefs, true, false)
    }

    predicate Continues()
      reads this
    {
      !stopOnFirstError || errors == []
    }

    method AddError(at: Path, kind: ErrorKind)
      modifies this`errors
      ensures errors == old(errors) + [ValidationError(at, kind)]
    {
      errors := errors + [ValidationError(at, kind)];
    }

    method MarkPlaces(places: set<Place>)
      modifies tracker
      ensures tracker == old(tracker)
      ensures Now() == old(Now()).Marked(places)
    {
      if tracker != null {
        tracker.Add(places);
      }
    }

    /** DynamicScopeGuard's constructor, for resources that have dynamic anchors. */
    method PushScope(resource: Option<nat>) returns (pushed: bool)
      modifies this`dynamicScope
      ensures pushed <==> resource.Some? && resource.value in schema.resourceAnchors
      ensures dynamicScope == if pushed then old(dynamicScope) + [schema.resourceAnchors[resource.value]]
                              else old(dynamicScope)
    {
      pushed := resource.Some? && resource.value in schema.resourceAnchors;
      if pushed {
        dynamicScope := dynamicScope + [schema.resourceAnchors[resource.value]];
      }
    }

    /** DynamicScopeGuard's destructor. */
    method PopScope(pushed: bool)
      requires pushed ==> dynamicScope != []
      modifies this`dynamicScope
      ensures dynamicScope == if pushed then old(dynamicScope)[..|old(dynamicScope)| - 1] else old(dynamicScope)
    {
      if pushed {
        dynamicScope := dynamicScope[..|dynamicScope| - 1];
      }
    }

    method IsRefActive(target: nat, at: Path) returns (active: bool)
      ensures active <==> (target, at) in activeRefs
    {
      var i := 0;
      while i < |activeRefs|
        invariant 0 <= i <= |activeRefs|
        invariant forall k :: 0 <= k < i ==> activeRefs[k] != (target, at)
      {
        if activeRefs[i].0 == target && activeRefs[i].1 == at {
          return true;
        }
        i := i + 1;
      }
      return false;
    }

    method ResolveDynamicAnchor(anchor: Text) returns (target: Option<nat>)
      ensures target == ResolveAnchor(dynamicScope, anchor)
    {
      var i := 0;
      assert dynamicScope[0..] == dynamicScope;
      while i < |dynamicScope|
        invariant 0 <= i <= |dynamicScope|
        invariant ResolveAnchor(dynamicScope, anchor) == ResolveAnchor(dynamicScope[i..], anchor)
      {
        assert dynamicScope[i..][1..] == dynamicScope[i + 1..];
        if anchor in dynamicScope[i] {
          return Some(dynamicScope[i][anchor]);
        }
        i := i + 1;
      }
      return None;
    }

    /**
     * Follows the schema node `n` on an instance. `fuel` is a ghost bound on the
     * call depth. On return the tracker pointer, the dynamic scope and the
     * active references are those of the entry.
     */
    method ValidateNode(ghost fuel: nat, n: nat, instance: Json, at: Path)
      requires RunNode(fuel, n, Here(instance, at), Now()).Some?
      modifies this, tracker
      ensures tracker == old(tracker) && dynamicScope == old(dynamicScope) && activeRefs == old(activeRefs)
      ensures Some(Now()) == old(RunNode(fuel, n, Here(instance, at), Now()))
      decreases fuel, 0
    {
      match schema.nodes[n] {
        case BooleanSchema(value) =>
          if !value {
            AddError(at, SchemaIsFalse);
          }
        case ObjectSchema(plan, tracked, selfIndex) =>
          ValidateObjectSchema(fuel, n, instance, at);
        case RefSchema(target, selfIndex) =>
          if target.None? {
            return;
          }
          var pushed := PushScope(selfIndex);
          ExpandReference(fuel - 1, target.value, instance, at);
          PopScope(pushed);
        case DynamicRefSchema(target, anchor) =>
          if target.None? {
            return;
          }
          var targetIndex := target.value;
          if anchor != [] && anchor[0] != SLASH && targetIndex in schema.anchorNames {
            if schema.anchorNames[targetIndex] == anchor {
              var resolved := ResolveDynamicAnchor(anchor);
              targetIndex := resolved.GetOr(targetIndex);
            }
          }
          ExpandReference(fuel - 1, targetIndex, instance, at);
      }
    }

    method ValidateObjectSchema(ghost fuel: nat, n: nat, instance: Json, at: Path)
      requires fuel > 0 && n < |schema.nodes| && schema.nodes[n].ObjectSchema?
      requires RunNode(fuel, n, Here(instance, at), Now()).Some?
      modifies this, tracker
      ensures tracker == old(tracker) && dynamicScope == old(dynamicScope) && activeRefs == old(activeRefs)
      ensures Some(Now()) == old(RunNode(fuel, n, Here(instance, at), Now()))
      decreases fuel - 1, 3
    {
      var node := schema.nodes[n];
      var pushed := PushScope(node.selfIndex);
      if node.tracked {
        var localTracker := new EvaluationTracker();
        var savedTracker := tracker;
        tracker := localTracker;
        Perform(fuel - 1, node.plan(instance), instance, at);
        tracker := savedTracker;
        MarkPlaces(localTracker.places);
      } else {
        Perform(fuel - 1, node.plan(instance), instance, at);
      }
      PopScope(pushed);
    }

    method ExpandReference(ghost fuel: nat, target: nat, instance: Json, at: Path)
      requires RunTarget(fuel, target, Here(instance, at), Now()).Some?
      modifies this, tracker
      ensures tracker == old(tracker) && dynamicScope == old(dynamicScope) && activeRefs == old(activeRefs)
      ensures Some(Now()) == old(RunTarget(fuel, target, Here(instance, at), Now()))
      decreases fuel, 1
    {
      var active := IsRefActive(target, at);
      if active {
        AddError(at, RefCycleDetected);
        return;
      }
      activeRefs := activeRefs + [(target, at)];
      var pushed := PushScope(Some(target));
      ValidateNode(fuel, target, instance, at);
      PopScope(pushed);
      activeRefs := activeRefs[..|activeRefs| - 1];
    }

    method Perform(ghost fuel: nat, acts: seq<Action>, instance: Json, at: Path)
      requires RunActions(fuel, acts, Here(instance, at), Now()).Some?
      modifies this, tracker
      ensures tracker == old(tracker) && dynamicScope == old(dynamicScope) && activeRefs == old(activeRefs)
      ensures Some(Now()) == old(RunActions(fuel, acts, Here(instance, at), Now()))
      decreases fuel, 2, acts
    {
      if acts == [] {
        return;
      }
      PerformOne(fuel, acts[0], instance, at);
      Perform(fuel, acts[1..], instance, at);
    }

    method PerformOne(ghost fuel: nat, act: Action, instance: Json, at: Path)
      requires RunAction(fuel, act, Here(instance, at), Now()).Some?
      modifies this, tracker
      ensures tracker == old(tracker) && dynamicScope == old(dynamicScope) && activeRefs == old(activeRefs)
      ensures Some(Now()) == old(RunAction(fuel, act, Here(instance, at), Now()))
      decreases fuel, 2, act
    {
      match act {
        case Guarded(body) =>
          if Continues() {
            Perform(fuel, body, instance, at);
          }
        case Fail(step) =>
          AddError(at + step, KeywordFailed);
        case Mark(places) =>
          MarkPlaces(places);
        case Visit(child, sub, step, suspended) =>
          if suspended {
            var parentTracker := tracker;
            tracker := null;
            ValidateNode(fuel, child, sub, at + step);
            tracker := parentTracker;
          } else {
            ValidateNode(fuel, child, sub, at + step);
          }
        case Unevaluated(place, child, sub) =>
          if !Continues() || tracker == null {
            return;
          }
          if place in tracker.places {
            return;
          }
          if schema.nodes[child].BooleanSchema? {
            if !schema.nodes[child].value {
              AddError(at + [place], KeywordFailed);
            }
          } else {
            ValidateNode(fuel, child, sub, at + [place]);
          }
          MarkPlaces({place});
        case _ =>
          TrySubschemas(fuel, act, instance, at);
      }
    }

    method TrySubschemas(ghost fuel: nat, act: Action, instance: Json, at: Path)
      requires act.Probes()
      requires RunAction(fuel, act, Here(instance, at), Now()).Some?
      modifies this, tracker
      ensures tracker == old(tracker) && dynamicScope == old(dynamicScope) && activeRefs == old(activeRefs)
      ensures Some(Now()) == old(RunAction(fuel, act, Here(instance, at), Now()))
      decreases fuel, 1, 2
    {
      var probes := ProbesOf(act, instance, tracker != null);
      var limit := LimitOf(act, tracker != null);
      ghost var hits' := RunProbes(fuel, Here(instance, at), probes, 0, limit, []).value;
      var hits: seq<Hit> := [];
      var i := 0;
      while i < |probes| && !(limit.Some? && |hits| >= limit.value)
        invariant 0 <= i <= |probes|
        invariant RunProbes(fuel, Here(instance, at), probes, i, limit, hits) == Some(hits')
        invariant tracker == old(tracker) && dynamicScope == old(dynamicScope) && activeRefs == old(activeRefs)
        invariant Now() == old(Now())
      {
        var hit := Try(fuel, probes[i], i, at);
        if hit.Some? {
          hits := hits + [hit.value];
        }
        i := i + 1;
      }
      Finish(act, hits, at);
      var branch := Branch(act, hits);
      if branch.Some? {
        ValidateNode(fuel, branch.value, instance, at);
      }
    }

    /** One subschema in a context of its own; this context is not touched. */
    method Try(ghost fuel: nat, p: Probe, i: nat, at: Path) returns (hit: Option<Hit>)
      requires RunNode(fuel, p.child, Frame(schema, true, p.instance, at + p.step, [], [], true, false),
                       ProbeState(p)).Some?
      ensures var out := RunNode(fuel, p.child, Frame(schema, true, p.instance, at + p.step, [], [], true, false),
                                 ProbeState(p)).value;
              hit == if out.IsValid() then Some(Hit(i, out.tracker.GetOr({}))) else None
      decreases fuel, 1, 1
    {
      var temp: ValidateContext;
      if p.tracked {
        var tempTracker := new EvaluationTracker();
        temp := new ValidateContext(schema, true, tempTracker);
      } else {
        temp := new ValidateContext(schema, true, null);
      }
      temp.ValidateNode(fuel, p.child, p.instance, at + p.step);
      if temp.errors != [] {
        return None;
      }
      return Some(Hit(i, if temp.tracker == null then {} else temp.tracker.places));
    }

    method Finish(act: Action, hits: seq<Hit>, at: Path)
      requires act.Probes()
      modifies this`errors, tracker
      ensures Now() == Conclude(act, hits, at, old(Now()))
    {
      match act {
        case AnyOf(_) =>
          if hits == [] {
            AddError(at, KeywordFailed);
          } else {
            MarkPlaces(AllPlaces(hits));
          }
        case OneOf(_) =>
          if |hits| == 1 {
            MarkPlaces(hits[0].places);
          } else {
            AddError(at, KeywordFailed);
          }
        case Not(_) =>
          if hits != [] {
            AddError(at, KeywordFailed);
          }
        case IfThenElse(_, _, _) =>
          if hits != [] {
            MarkPlaces(hits[0].places);
          }
        case Contains(_, _, minContains, maxContains) =>
          MarkPlaces(set h | h in hits :: Item(h.index));
          if |hits| < minContains {
            AddError(at, KeywordFailed);
          }
          if maxContains.Some? && |hits| > maxContains.value {
            AddError(at, KeywordFailed);
          }
      }
    }
  }
}
