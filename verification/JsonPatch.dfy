/** The JSON Patch interpreter (sections 4 and 5 of RFC 6902). */
module JsonPatch {
  import opened JsonValue
  import opened PointerEvaluation
  import opened PointerWrite
  import opened PointerWriteLaws
  import PointerCodec
  import PointerParsing
  import JsonEquality

  datatype OpKind = AddOp | CopyOp | MoveOp | RemoveOp | ReplaceOp | TestOp

  /** One validated operation; `from` is there for move and copy only. */
  datatype Op = Op(kind: OpKind, path: seq<Token>, from: Option<seq<Token>>, value: Json) {
    predicate Valid() {
      kind.MoveOp? || kind.CopyOp? ==> from.Some?
    }
  }

  predicate ValidOps(ops: seq<Op>) {
    forall i :: 0 <= i < |ops| ==> ops[i].Valid()
  }

  datatype OpFailure =
    | PointerFailed(error: EvalError)
    | MoveIntoOwnDescendant
    | TestFailed

  /** `detail` is the 16-bit index of the failing operation. */
  datatype ApplyError = ApplyError(failure: OpFailure, detail: nat)

  /** Pointer failures clamp the operation index; the patch's own failures truncate it. */
  function AtOp(failure: OpFailure, i: nat): ApplyError {
    ApplyError(failure, if failure.PointerFailed? then ClampTokenIndex(i) else i % (UINT16_MAX + 1))
  }

  // ---------------------------------------------------------------------
  // Reference semantics
  // ---------------------------------------------------------------------

  function AddAt(root: Json, path: seq<Token>, value: Json): Result<Json, OpFailure> {
    match Write(root, path, Some(value), Add, false)
    case Ok(effect) => Ok(effect.root)
    case Err(f) => Err(PointerFailed(f.error))
  }

  function ApplyOp(op: Op, root: Json): Result<Json, OpFailure>
    requires op.Valid()
  {
    match op.kind
    case AddOp => AddAt(root, op.path, op.value)
    case ReplaceOp =>
      (match Write(root, op.path, Some(op.value), Replace, false)
       case Ok(effect) => Ok(effect.root)
       case Err(f) => Err(PointerFailed(f.error)))
    case RemoveOp =>
      (match Write(root, op.path, Some(Null), Remove, false)
       case Ok(effect) => Ok(effect.root)
       case Err(f) => Err(PointerFailed(f.error)))
    case CopyOp =>
      (match Evaluate(root, op.from.value)
       case Ok(value) => AddAt(root, op.path, value)
       case Err(f) => Err(PointerFailed(f.error)))
    case MoveOp =>
      if PointerCodec.StringPrefixTest(PointerCodec.Print(op.from.value), PointerCodec.Print(op.path)) then
        Err(MoveIntoOwnDescendant)
      else
        (match Write(root, op.from.value, Some(Null), Remove, false)
         case Ok(effect) => AddAt(effect.root, op.path, Stored(effect.removed))
         case Err(f) => Err(PointerFailed(f.error)))
    case TestOp =>
      (match Evaluate(root, op.path)
       case Ok(value) =>
         if JsonEquality.Normalised(value) == JsonEquality.Normalised(op.value) then Ok(root) else Err(TestFailed)
       case Err(f) => Err(PointerFailed(f.error)))
  }

  /** Operations in order; `i` is the index of the first of them in the whole patch. */
  function ApplyFrom(ops: seq<Op>, root: Json, i: nat): Result<Json, ApplyError>
    requires ValidOps(ops)
  {
    if ops == [] then Ok(root)
    else
      match ApplyOp(ops[0], root)
      case Err(failure) => Err(AtOp(failure, i))
      case Ok(next) => ApplyFrom(ops[1..], next, i + 1)
  }

  function Apply(ops: seq<Op>, root: Json): Result<Json, ApplyError>
    requires ValidOps(ops)
  {
    ApplyFrom(ops, root, 0)
  }

  // ---------------------------------------------------------------------
  // The interpreter
  // ---------------------------------------------------------------------

  method IsProperPrefixOf(from: seq<Token>, path: seq<Token>) returns (r: bool)
    ensures r <==> PointerCodec.StringPrefixTest(PointerCodec.Print(from), PointerCodec.Print(path))
    ensures PointerCodec.Canonical(from) && PointerCodec.Canonical(path) ==>
              (r <==> PointerCodec.ProperPrefix(from, path))
  {
    PointerCodec.PrefixTestIsExact(from, path);
    var fromText := PointerParsing.ToString(from);
    var pathText := PointerParsing.ToString(path);
    r := |pathText| > |fromText| && fromText <= pathText && pathText[|fromText|] == PointerCodec.SLASH;
  }

  /** One turn of the interpreter's switch, working on the shared working copy. */
  method RunOp(op: Op, root: JsonRef) returns (failure: Option<OpFailure>)
    requires op.Valid()
    modifies root
    ensures match ApplyOp(op, old(root.value))
            case Ok(next) => failure == None && root.value == next
            case Err(f) => failure == Some(f)
  {
    match op.kind {
      case AddOp =>
        var r := WritePointer(op.path, root, Some(op.value), Add, false);
        if r.Err? {
          return Some(PointerFailed(r.error.error));
        }
      case ReplaceOp =>
        var r := WritePointer(op.path, root, Some(op.value), Replace, false);
        if r.Err? {
          return Some(PointerFailed(r.error.error));
        }
      case RemoveOp =>
        var r := WritePointer(op.path, root, Some(Null), Remove, false);
        if r.Err? {
          return Some(PointerFailed(r.error.error));
        }
      case CopyOp =>
        var value := EvaluatePointer(op.from.value, root.value);
        if value.Err? {
          return Some(PointerFailed(value.error.error));
        }
        var r := WritePointer(op.path, root, Some(value.value), Add, false);
        if r.Err? {
          return Some(PointerFailed(r.error.error));
        }
      case MoveOp =>
        var inside := IsProperPrefixOf(op.from.value, op.path);
        if inside {
          return Some(MoveIntoOwnDescendant);
        }
        var removed := WritePointer(op.from.value, root, Some(Null), Remove, false);
        if removed.Err? {
          return Some(PointerFailed(removed.error.error));
        }
        var r := WritePointer(op.path, root, removed.value, Add, false);
        if r.Err? {
          return Some(PointerFailed(r.error.error));
        }
      case TestOp =>
        var value := EvaluatePointer(op.path, root.value);
        if value.Err? {
          return Some(PointerFailed(value.error.error));
        }
        JsonEquality.DeepEqualIsStructural(value.value, op.value);
        var equal := JsonEquality.JsonDeepEquals(value.value, op.value);
        if !equal {
          return Some(TestFailed);
        }
    }
    return None;
  }

  method ApplyOps(ops: seq<Op>, document: Json) returns (r: Result<Json, ApplyError>)
    requires ValidOps(ops)
    ensures r == Apply(ops, document)
  {
    var root := new JsonRef(document);
    var i := 0;
    assert ops[0..] == ops;
    while i < |ops|
      invariant 0 <= i <= |ops|
      invariant Apply(ops, document) == ApplyFrom(ops[i..], root.value, i)
    {
      assert ops[i..][1..] == ops[i + 1..];
      var failure := RunOp(ops[i], root);
      if failure.Some? {
        return Err(AtOp(failure.value, i));
      }
      i := i + 1;
    }
    return Ok(root.value);
  }

  // ---------------------------------------------------------------------
  // In-place application is atomic
  // ---------------------------------------------------------------------

  datatype InPlaceError = Operation(error: ApplyError) | WrongRoot(code: EvalError)

  method ApplyInPlaceTyped(ops: seq<Op>, target: JsonRef, kind: RootKind) returns (r: Option<InPlaceError>)
    requires ValidOps(ops) && (if kind.ObjectRoot? then target.value.Obj? else target.value.Arr?)
    modifies target
    ensures if kind.ObjectRoot? then target.value.Obj? else target.value.Arr?
    ensures r.Some? ==> target.value == old(target.value)
    ensures match Apply(ops, old(target.value))
            case Err(e) => r == Some(Operation(e))
            case Ok(next) =>
              if (kind.ObjectRoot? && next.Obj?) || (kind.ArrayRoot? && next.Arr?) then
                r == None && target.value == next
              else r == Some(WrongRoot(RootTypeMismatch))
  {
    var result := ApplyOps(ops, target.value);
    if result.Err? {
      return Some(Operation(result.error));
    }
    if !HasKind(result.value, kind) {
      return Some(WrongRoot(RootTypeMismatch));
    }
    target.value := result.value;
    return None;
  }

  method ApplyInPlaceDocument(ops: seq<Op>, target: JsonRef) returns (r: Option<InPlaceError>)
    requires ValidOps(ops) && (target.value.Obj? || target.value.Arr? || target.value.Null?)
    modifies target
    ensures target.value.Obj? || target.value.Arr? || target.value.Null?
    ensures r.Some? ==> target.value == old(target.value)
    ensures match Apply(ops, old(target.value))
            case Err(e) => r == Some(Operation(e))
            case Ok(next) =>
              if next.Obj? || next.Arr? || next.Null? then r == None && target.value == next
              else r == Some(WrongRoot(DocumentRootNotContainer))
  {
    var result := ApplyOps(ops, target.value);
    if result.Err? {
      return Some(Operation(result.error));
    }
    if !IsDocumentRoot(result.value) {
      return Some(WrongRoot(DocumentRootNotContainer));
    }
    target.value := result.value;
    return None;
  }

  // ---------------------------------------------------------------------
  // Whole runs
  // ---------------------------------------------------------------------

  /** Applying two patches one after the other is applying their concatenation. */
  lemma {:induction false} ApplyConcat(first: seq<Op>, second: seq<Op>, root: Json, i: nat)
    requires ValidOps(first) && ValidOps(second)
    ensures ValidOps(first + second)
    ensures ApplyFrom(first + second, root, i) ==
            match ApplyFrom(first, root, i)
            case Err(e) => Err(e)
            case Ok(next) => ApplyFrom(second, next, i + |first|)
    decreases |first|
  {
    if first == [] {
      assert first + second == second;
    } else {
      assert (first + second)[1..] == first[1..] + second;
      match ApplyOp(first[0], root)
      case Err(_) =>
      case Ok(next) => ApplyConcat(first[1..], second, next, i + 1);
    }
  }

  /** Operation `n` is reached, fails, and is what the error reports. */
  predicate FailsAt(ops: seq<Op>, root: Json, i: nat, n: nat, e: ApplyError)
    requires ValidOps(ops)
  {
    && n < |ops|
    && var before := ApplyFrom(ops[..n], root, i);
    && before.Ok? && ApplyOp(ops[n], before.value).Err? && e == AtOp(ApplyOp(ops[n], before.value).error, i + n)
  }

  /** An operation that fails on what the ones before it made decides the error of the run. */
  lemma {:induction false} FirstFailureDecides(ops: seq<Op>, root: Json, i: nat, n: nat, e: ApplyError)
    requires ValidOps(ops)
    ensures FailsAt(ops, root, i, n, e) ==> ApplyFrom(ops, root, i) == Err(e)
  {
    if FailsAt(ops, root, i, n, e) {
      var rest := ops[n..];
      assert ops == ops[..n] + rest && rest[0] == ops[n];
      ApplyConcat(ops[..n], rest, root, i);
    }
  }

  lemma FailsLater(ops: seq<Op>, root: Json, i: nat, m: nat, e: ApplyError)
    requires ValidOps(ops) && ops != [] && ApplyOp(ops[0], root).Ok?
    requires FailsAt(ops[1..], ApplyOp(ops[0], root).value, i + 1, m, e)
    ensures FailsAt(ops, root, i, m + 1, e)
  {
    assert ops[..m + 1][0] == ops[0] && ops[..m + 1][1..] == ops[1..][..m];
  }

  lemma {:induction false} FirstFailure(ops: seq<Op>, root: Json, i: nat) returns (n: nat)
    requires ValidOps(ops)
    requires ApplyFrom(ops, root, i).Err?
    ensures FailsAt(ops, root, i, n, ApplyFrom(ops, root, i).error)
    decreases |ops|
  {
    n := 0;
    assert ops[..0] == [];
    var first := ApplyOp(ops[0], root);
    if first.Ok? {
      var m := FirstFailure(ops[1..], first.value, i + 1);
      FailsLater(ops, root, i, m, ApplyFrom(ops, root, i).error);
      n := m + 1;
    }
  }

  /**
   * A failing run has such an operation. The index it reports is that operation's
   * own exactly up to 65535; beyond, pointer failures stop there and the others
   * start again at 0.
   */
  lemma FailureHasPlace(ops: seq<Op>, root: Json, i: nat) returns (n: nat)
    requires ValidOps(ops)
    requires ApplyFrom(ops, root, i).Err?
    ensures FailsAt(ops, root, i, n, ApplyFrom(ops, root, i).error)
    ensures var e := ApplyFrom(ops, root, i).error;
            && (e.detail == i + n <==> i + n <= 65535)
            && (i + n > 65535 ==> e.detail == if e.failure.PointerFailed? then 65535 else (i + n) % 65536)
  {
    n := FirstFailure(ops, root, i);
  }

  function TestNull(expected: Json): Op {
    Op(TestOp, [], None, expected)
  }

  function PassingTests(n: nat): seq<Op> {
    seq(n, _ => TestNull(Null))
  }

  lemma {:induction false} TestsPass(n: nat, i: nat)
    ensures ValidOps(PassingTests(n)) && ApplyFrom(PassingTests(n), Null, i) == Ok(Null)
  {
    if n > 0 {
      assert PassingTests(n)[1..] == PassingTests(n - 1);
      TestsPass(n - 1, i + 1);
    }
  }

  /** A test that fails after 65536 that pass is reported as the first operation. */
  lemma LateFailureLooksFirst()
    ensures var ops := PassingTests(65536) + [TestNull(Bool(true))];
            ValidOps(ops) && Apply(ops, Null) == Err(ApplyError(TestFailed, 0))
  {
    var passing, failing := PassingTests(UINT16_MAX + 1), [TestNull(Bool(true))];
    TestsPass(UINT16_MAX + 1, 0);
    ApplyConcat(passing, failing, Null, 0);
    assert ApplyOp(failing[0], Null) == Err(TestFailed);
  }

  /** Where the numbering starts never matters but for the reported index, which moves along while it fits 16 bits. */
  lemma {:induction false} IndexShift(ops: seq<Op>, root: Json, i: nat, offset: nat)
    requires ValidOps(ops)
    ensures match ApplyFrom(ops, root, i)
            case Ok(next) => ApplyFrom(ops, root, i + offset) == Ok(next)
            case Err(e) =>
              var shifted := ApplyFrom(ops, root, i + offset);
              && shifted.Err? && shifted.error.failure == e.failure
              && (i + offset + |ops| <= 65536 ==> shifted.error.detail == e.detail + offset)
    decreases |ops|
  {
    if ops != [] {
      match ApplyOp(ops[0], root)
      case Err(_) =>
      case Ok(next) => IndexShift(ops[1..], next, i + 1, offset);
    }
  }

  // ---------------------------------------------------------------------
  // Single operations
  // ---------------------------------------------------------------------

  /** A replacement needs the location to exist, and replaces just the value there; nothing shifts. */
  lemma ReplaceOnly(root: Json, op: Op)
    requires op.kind == ReplaceOp
    ensures var r, there := ApplyOp(op, root), Lookup(root, op.path);
            if there.Ok? then r.Ok? && ReplacedAt(root, op.path, op.value, r.value)
            else there.error.tokenIndex < |op.path|
                 && r == Err(PointerFailed(WriteFailure(root, op.path, there.error).error))
  {
    ReplaceAt(root, op.path, op.value);
  }

  /** The container without the member or element; later elements move down. */
  function Without(parent: Json, token: Token): Json
    requires Child(parent, token).Ok?
  {
    match parent
    case Obj(members) => Obj(map k | k in members && k != token.key :: members[k])
    case Arr(items) => Arr(items[..token.index] + items[token.index + 1..])
  }

  lemma ParentOfFound(root: Json, path: seq<Token>)
    requires path != [] && Lookup(root, path).Ok?
    ensures var last := |path| - 1;
            && Lookup(root, path[..last]).Ok?
            && Child(Lookup(root, path[..last]).value, path[last]) == Ok(Lookup(root, path).value)
  {
    var last := |path| - 1;
    assert path == path[..last] + [path[last]];
    LookupConcat(root, path[..last], [path[last]]);
    if Lookup(root, path[..last]).Ok? {
      LookupOne(Lookup(root, path[..last]).value, path[last]);
    }
  }

  lemma LeafRemoved(parent: Json, token: Token, v: Json)
    requires Child(parent, token).Ok?
    ensures WriteLeaf(parent, token, v, Remove) == Ok(Effect(Without(parent, token), Some(Child(parent, token).value)))
  {
    if parent.Obj? {
      assert parent.members - {token.key} == Without(parent, token).members;
    }
  }

  /** A removal needs a location below the root that exists, and takes just that out of its container. */
  lemma RemoveOnly(root: Json, op: Op)
    requires op.kind == RemoveOp
    ensures op.path == [] ==> ApplyOp(op, root) == Err(PointerFailed(CannotRemoveRoot))
    ensures op.path != [] ==>
              var r, there, last := ApplyOp(op, root), Lookup(root, op.path), |op.path| - 1;
              var up := Lookup(root, op.path[..last]);
              if there.Ok? then
                && r.Ok? && up.Ok? && Child(up.value, op.path[last]).Ok?
                && ReplacedAt(root, op.path[..last], Without(up.value, op.path[last]), r.value)
              else there.error.tokenIndex < |op.path|
                   && r == Err(PointerFailed(WriteFailure(root, op.path, there.error).error))
  {
    if op.path != [] {
      var last := |op.path| - 1;
      TargetMustExist(root, op.path, Null, Remove);
      if Lookup(root, op.path).Ok? {
        ParentOfFound(root, op.path);
        var parent := Lookup(root, op.path[..last]).value;
        UpdateAtParent(root, op.path, Null, Remove);
        LeafRemoved(parent, op.path[last], Null);
        ReplaceAt(root, op.path[..last], Without(parent, op.path[last]));
      }
    }
  }

  predicate HasRoom(parent: Json, token: Token) {
    match parent
    case Obj(_) => true
    case Arr(items) => if token.IndexToken? then token.index <= |items| else token.key == [0x2D]
    case _ => false
  }

  /** The container with the member, or with a new element before which others keep their place. */
  function WithNew(parent: Json, token: Token, v: Json): Json
    requires HasRoom(parent, token)
  {
    match parent
    case Obj(members) => Obj(members[token.key := v])
    case Arr(items) =>
      var at := if token.IndexToken? then token.index else |items|;
      Arr(items[..at] + [v] + items[at..])
  }

  lemma LeafAdded(parent: Json, token: Token, v: Json)
    requires HasRoom(parent, token)
    ensures WriteLeaf(parent, token, v, Add) == Ok(Effect(WithNew(parent, token, v), None))
  {
  }

  /** An addition at the root replaces the document; elsewhere it needs a container with room, and changes only that. */
  lemma AddOnly(root: Json, op: Op)
    requires op.kind == AddOp
    ensures op.path == [] ==> ApplyOp(op, root) == Ok(op.value)
    ensures op.path != [] ==>
              var r, last := ApplyOp(op, root), |op.path| - 1;
              var up := Lookup(root, op.path[..last]);
              if up.Err? then
                up.error.tokenIndex < last && r == Err(PointerFailed(WriteFailure(root, op.path, up.error).error))
              else if HasRoom(up.value, op.path[last]) then
                r.Ok? && ReplacedAt(root, op.path[..last], WithNew(up.value, op.path[last], op.value), r.value)
              else r == Err(PointerFailed(BlockError(up.value, op.path[last])))
  {
    if op.path != [] {
      var last := |op.path| - 1;
      AddNeedsParent(root, op.path, op.value);
      var up := Lookup(root, op.path[..last]);
      if up.Ok? && HasRoom(up.value, op.path[last]) {
        UpdateAtParent(root, op.path, op.value, Add);
        LeafAdded(up.value, op.path[last], op.value);
        ReplaceAt(root, op.path[..last], WithNew(up.value, op.path[last], op.value));
      }
    }
  }

  /** A copy is an addition of what is at its source, up to 65535 tokens. */
  lemma CopyIsAdd(root: Json, op: Op)
    requires op.kind == CopyOp && op.Valid()
    ensures var there := Lookup(root, op.from.value);
            if |op.from.value| <= 65535 && there.Ok? then
              ApplyOp(op, root) == ApplyOp(Op(AddOp, op.path, None, there.value), root)
            else ApplyOp(op, root).Err?
    ensures |op.from.value| <= 65535 && Lookup(root, op.from.value).Err? ==>
              ApplyOp(op, root) == Err(PointerFailed(Lookup(root, op.from.value).error.error))
  {
    EvaluateIsLookup(root, op.from.value);
  }

  /** It puts the value of its source at its destination, and leaves the source's where that shifts it to. */
  lemma CopyKeepsSource(root: Json, op: Op, below: seq<Token>)
    requires op.kind == CopyOp && op.Valid() && op.path != [] && ApplyOp(op, root).Ok?
    ensures Lookup(root, op.from.value).Ok?
    ensures Found(ApplyOp(op, root).value, Resolved(root, op.path, false) + below) ==
            Found(Lookup(root, op.from.value).value, below)
    ensures var kept := Moved(root, op.path, op.from.value, Add, false);
            kept.Some? ==> Lookup(ApplyOp(op, root).value, kept.value) == Lookup(root, op.from.value)
  {
    CopyIsAdd(root, op);
    var v := Lookup(root, op.from.value).value;
    WriteReadBack(root, op.path, Some(v), Add, false, below);
    if Moved(root, op.path, op.from.value, Add, false).Some? {
      Frame(root, op.path, op.from.value, v, Add, false);
    }
  }

  /** A move that is not refused is a removal, and then an addition of what was there. */
  lemma MoveIsRemoveThenAdd(root: Json, op: Op)
    requires op.kind == MoveOp && op.Valid() && ApplyOp(op, root) != Err(MoveIntoOwnDescendant)
    ensures var cut := ApplyOp(Op(RemoveOp, op.from.value, None, Null), root);
            if cut.Err? then ApplyOp(op, root) == cut
            else
              && Lookup(root, op.from.value).Ok?
              && ApplyOp(op, root) == ApplyOp(Op(AddOp, op.path, None, Lookup(root, op.from.value).value), cut.value)
  {
    if op.from.value != [] {
      TargetMustExist(root, op.from.value, Null, Remove);
    }
  }

  lemma SelfPrefix(p: seq<Token>)
    ensures !PointerCodec.StringPrefixTest(PointerCodec.Print(p), PointerCodec.Print(p))
  {
  }

  /** Moving a location onto itself succeeds exactly for existing non-root locations, and changes nothing. */
  lemma MoveToSelf(root: Json, p: seq<Token>, value: Json)
    ensures var r := ApplyOp(Op(MoveOp, p, Some(p), value), root);
            if p != [] && Lookup(root, p).Ok? then r == Ok(root) else r.Err?
  {
    SelfPrefix(p);
    if p != [] {
      TargetMustExist(root, p, Null, Remove);
      if Lookup(root, p).Ok? {
        AddUndoesRemove(root, p, Null);
      }
    }
  }

  /** A move takes the value from its source and leaves it, whole, at its destination. */
  lemma MoveCarriesValue(root: Json, op: Op)
    requires op.kind == MoveOp && op.Valid() && op.path != []
    requires ApplyOp(op, root).Ok?
    ensures op.from.value != [] && Lookup(root, op.from.value).Ok?
    ensures var cut := Write(root, op.from.value, Some(Null), Remove, false).value.root;
            Lookup(ApplyOp(op, root).value, Resolved(cut, op.path, false)) == Lookup(root, op.from.value)
  {
    TargetMustExist(root, op.from.value, Null, Remove);
    var cut := Write(root, op.from.value, Some(Null), Remove, false).value;
    ReadBack(cut.root, op.path, cut.removed.value, Add, false);
  }

  /** With canonical pointers a move is refused as self-containing exactly when `from` is a proper prefix of `path`. */
  lemma MoveGuard(root: Json, op: Op)
    requires op.kind == MoveOp && op.Valid()
    requires PointerCodec.Canonical(op.from.value) && PointerCodec.Canonical(op.path)
    ensures ApplyOp(op, root) == Err(MoveIntoOwnDescendant) <==> PointerCodec.ProperPrefix(op.from.value, op.path)
  {
    PointerCodec.PrefixTestIsExact(op.from.value, op.path);
  }

  /** A test never changes the document, and passes exactly when the location holds an equal value. */
  lemma TestOnlyLooks(root: Json, op: Op)
    requires op.kind == TestOp
    ensures ApplyOp(op, root) == Ok(root) || ApplyOp(op, root).Err?
    ensures ApplyOp(op, root).Ok? <==>
            |op.path| <= 65535 && Lookup(root, op.path).Ok?
            && JsonEquality.DeepEqual(Lookup(root, op.path).value, op.value)
  {
    EvaluateIsLookup(root, op.path);
    if Lookup(root, op.path).Ok? {
      JsonEquality.DeepEqualIsStructural(Lookup(root, op.path).value, op.value);
    }
  }

  /** Replacing is removing and then adding at the same place. */
  lemma {:induction false} ReplaceIsRemoveThenAdd(root: Json, path: seq<Token>, v: Json)
    requires path != []
    ensures var cut := Update(root, path, Null, Remove, false);
            var swap := Update(root, path, v, Replace, false);
            && (swap.Ok? <==> cut.Ok?)
            && (cut.Ok? ==> Update(cut.value.root, path, v, Add, false) == swap)
    decreases |path|
  {
    TargetMustExist(root, path, Null, Remove);
    TargetMustExist(root, path, v, Replace);
    if Lookup(root, path).Ok? {
      if |path| == 1 {
        LeafReplaceIsRemoveThenAdd(root, path[0], v);
      } else {
        var child := Descend(root, path[0], false).value;
        ReplaceIsRemoveThenAdd(child, path[1..], v);
        var cut := Update(child, path[1..], Null, Remove, false).value.root;
        var swap := Update(child, path[1..], v, Replace, false).value.root;
        PutBack(root, path[0], cut, child);
        PutTwice(root, path[0], cut, swap);
      }
    }
  }

  lemma LeafReplaceIsRemoveThenAdd(c: Json, token: Token, v: Json)
    requires WriteLeaf(c, token, Null, Remove).Ok?
    ensures WriteLeaf(WriteLeaf(c, token, Null, Remove).value.root, token, v, Add) == WriteLeaf(c, token, v, Replace)
  {
    match c
    case Obj(members) =>
      assert (members - {token.key})[token.key := v] == members[token.key := v];
    case Arr(items) =>
      var idx := Position(items, token).value;
      var rest := items[..idx] + items[idx + 1..];
      assert rest[..idx] + [v] + rest[idx..] == items[idx := v];
    case _ =>
  }
}
