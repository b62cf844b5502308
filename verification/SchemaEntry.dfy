/** The two public validators. */
module SchemaEntry {
  import opened JsonValue
  import opened SchemaGraph
  import opened SchemaLaws
  import opened SchemaValidator

  /** `result` is what a collecting run returns with. */
  ghost predicate Collected(schema: Schema, instance: Json, errors: seq<ValidationError>) {
    exists fuel: nat, tracker :: RunRoot(fuel, schema, instance, false) == Some(State(errors, tracker))
  }

  /** The depth bound plays no part in what a run collects. */
  lemma CollectedOnce(schema: Schema, instance: Json, a: seq<ValidationError>, b: seq<ValidationError>)
    requires Collected(schema, instance, a) && Collected(schema, instance, b)
    ensures a == b
  {
    var m: nat, t :| RunRoot(m, schema, instance, false) == Some(State(a, t));
    var n: nat, u :| RunRoot(n, schema, instance, false) == Some(State(b, u));
    var most := if m > n then m else n;
    NodeMonotone(m, most, schema.root, RootFrame(schema, instance, false), State([], None));
    NodeMonotone(n, most, schema.root, RootFrame(schema, instance, false), State([], None));
  }

  method Validate(schema: Schema, instance: Json, stopOnFirstError: bool, ghost fuel: nat)
    returns (errors: seq<ValidationError>)
    requires RunRoot(fuel, schema, instance, stopOnFirstError).Some?
    ensures errors == RunRoot(fuel, schema, instance, stopOnFirstError).value.errors
  {
    var ctx := new ValidateContext(schema, stopOnFirstError, null);
    var pushed := ctx.PushScope(Some(schema.root));
    assert ctx.Here(instance, []) == RootFrame(schema, instance, stopOnFirstError);
    ctx.ValidateNode(fuel, schema.root, instance, []);
    errors := ctx.errors;
  }

  /** A method of the model has to return; the validator is not followed where it does not. */
  method ValidateInstance(schema: Schema, instance: Json) returns (errors: seq<ValidationError>)
    requires Returns(schema, instance, false)
    ensures Collected(schema, instance, errors)
  {
    ghost var fuel: nat :| RunRoot(fuel, schema, instance, false).Some?;
    errors := Validate(schema, instance, false, fuel);
    ghost var out := RunRoot(fuel, schema, instance, false).value;
    assert RunRoot(fuel, schema, instance, false) == Some(State(errors, out.tracker));
  }

  /** The fail-fast validator accepts exactly the instances for which the collecting one reports nothing. */
  method IsInstanceValid(schema: Schema, instance: Json) returns (valid: bool)
    requires Returns(schema, instance, true)
    ensures valid <==> Collected(schema, instance, [])
  {
    ghost var fuel: nat :| RunRoot(fuel, schema, instance, true).Some?;
    var errors := Validate(schema, instance, true, fuel);
    valid := errors == [];
    ghost var out := RunRoot(fuel, schema, instance, true).value;
    if valid {
      ValidFailFastIsCollecting(fuel, schema, instance);
      assert RunRoot(fuel, schema, instance, false) == Some(State([], out.tracker));
    }
    if Collected(schema, instance, []) {
      AcceptedByBoth(fuel, schema, instance);
    }
  }

  /** What the collecting validator accepts, the fail-fast one does not reject. */
  lemma AcceptedByBoth(fuel: nat, schema: Schema, instance: Json)
    requires Collected(schema, instance, []) && RunRoot(fuel, schema, instance, true).Some?
    ensures RunRoot(fuel, schema, instance, true).value.IsValid()
  {
    var other: nat, tracker :| RunRoot(other, schema, instance, false) == Some(State([], tracker));
    var f, most := RootFrame(schema, instance, true), if fuel > other then fuel else other;
    SameVerdict(other, schema, instance);
    NodeMonotone(other, most, schema.root, f, State([], None));
    NodeMonotone(fuel, most, schema.root, f, State([], None));
  }
}
