/** The write engine behind JSONPointer::add / replace / remove / set. */
module PointerWrite {
  import opened JsonValue
  import opened PointerEvaluation

  datatype WriteOp = Add | Replace | Remove

  /** The document after a successful write, and what a removal took out. */
  datatype Effect = Effect(root: Json, removed: Option<Json>)

  const MINUS: CodeUnit := 0x2D

  /** "-" (section 4.1 of RFC 6902): the position after the last array element. */
  predicate IsAppend(token: Token) {
    token.KeyToken? && token.key == [MINUS]
  }

  /** The container made for a missing level, chosen by the token applied inside it. */
  function Created(token: Token): Json {
    if (token.IndexToken? && token.index == 0) || IsAppend(token) then Arr([]) else Obj(map[])
  }

  function Container(current: Json, token: Token, create: bool): Json {
    if current.Null? && create then Created(token) else current
  }

  function Position(items: seq<Json>, token: Token): Result<nat, EvalError> {
    if token.IndexToken? then Ok(token.index)
    else if IsAppend(token) then Ok(|items|)
    else Err(TypeMismatchArray)
  }

  // ---------------------------------------------------------------------
  // Reference: the recursive functional update
  // ---------------------------------------------------------------------

  function WriteMember(members: map<Text, Json>, key: Text, v: Json, op: WriteOp): Result<Effect, EvalError> {
    if op.Add? then Ok(Effect(Obj(members[key := v]), None))
    else if key !in members then Err(KeyNotFound)
    else if op.Replace? then Ok(Effect(Obj(members[key := v]), None))
    else Ok(Effect(Obj(members - {key}), Some(members[key])))
  }

  function WriteElement(items: seq<Json>, idx: nat, v: Json, op: WriteOp): Result<Effect, EvalError> {
    if (if op.Add? then idx > |items| else idx >= |items|) then Err(IndexOutOfRange)
    else match op
      case Add => Ok(Effect(Arr(items[..idx] + [v] + items[idx..]), None))
      case Replace => Ok(Effect(Arr(items[idx := v]), None))
      case Remove => Ok(Effect(Arr(items[..idx] + items[idx + 1..]), Some(items[idx])))
  }

  function WriteLeaf(container: Json, token: Token, v: Json, op: WriteOp): Result<Effect, EvalError> {
    match container
    case Obj(members) => WriteMember(members, token.key, v, op)
    case Arr(items) =>
      (match Position(items, token)
       case Err(e) => Err(e)
       case Ok(idx) => WriteElement(items, idx, v, op))
    case _ => Err(TypeMismatchObject)
  }

  /** The value to go on from; with `create`, a missing child reads as null. */
  function Descend(container: Json, token: Token, create: bool): Result<Json, EvalError> {
    match container
    case Obj(members) =>
      if token.key in members then Ok(members[token.key])
      else if create then Ok(Null)
      else Err(KeyNotFound)
    case Arr(items) =>
      (match Position(items, token)
       case Err(e) => Err(e)
       case Ok(idx) =>
         if idx < |items| then Ok(items[idx])
         else if create && idx == |items| then Ok(Null)
         else Err(IndexOutOfRange))
    case _ => Err(TypeMismatchObject)
  }

  function Put(container: Json, token: Token, create: bool, child: Json): Json
    requires Descend(container, token, create).Ok?
  {
    match container
    case Obj(members) => Obj(members[token.key := child])
    case Arr(items) =>
      var idx := Position(items, token).value;
      if idx == |items| then Arr(items + [child]) else Arr(items[idx := child])
  }

  /** The outcome at one level, rebuilt from the outcome below it. */
  function Rebuilt(container: Json, token: Token, create: bool, below: Result<Effect, Failure>): Result<Effect, Failure>
    requires Descend(container, token, create).Ok?
  {
    match below
    case Err(f) => Err(Failure(f.error, f.tokenIndex + 1))
    case Ok(e) => Ok(Effect(Put(container, token, create, e.root), e.removed))
  }

  function Update(doc: Json, tokens: seq<Token>, v: Json, op: WriteOp, create: bool): Result<Effect, Failure>
    requires tokens != []
    decreases |tokens|
  {
    var c := Container(doc, tokens[0], create);
    if |tokens| == 1 then
      match WriteLeaf(c, tokens[0], v, op)
      case Ok(effect) => Ok(effect)
      case Err(e) => Err(Failure(e, 0))
    else
      match Descend(c, tokens[0], create)
      case Err(e) => Err(Failure(e, 0))
      case Ok(child) => Rebuilt(c, tokens[0], create, Update(child, tokens[1..], v, op, create))
  }

  /** Storing Undefined would remove a member; it is normalised to null. */
  function Stored(value: Option<Json>): Json {
    if value.Some? then value.value else Null
  }

  function Write(doc: Json, tokens: seq<Token>, value: Option<Json>, op: WriteOp, create: bool)
    : Result<Effect, Failure>
  {
    if tokens != [] then Update(doc, tokens, Stored(value), op, create)
    else if op.Remove? then Err(Failure(CannotRemoveRoot, 0))
    else Ok(Effect(Stored(value), None))
  }

  function ClampTokenIndex(i: nat): nat {
    if i < UINT16_MAX then i else UINT16_MAX
  }

  function Clamped<T>(r: Result<T, Failure>): Result<T, Failure> {
    match r
    case Ok(_) => r
    case Err(f) => Err(Failure(f.error, ClampTokenIndex(f.tokenIndex)))
  }

  // ---------------------------------------------------------------------
  // The engine: iterative descent, then bottom-up unwind
  // ---------------------------------------------------------------------

  /** One level of the descent; `resolvedIndex` is -1 for an object member. */
  datatype PathStep = PathStep(container: Json, token: Token, resolvedIndex: int) {
    predicate Valid() {
      if resolvedIndex < 0 then container.Obj? else container.Arr? && resolvedIndex <= |container.items|
    }

    /** The step was taken with `token`, at the place it designates in the container. */
    predicate Matches(token: Token) {
      && Valid() && this.token == token
      && if resolvedIndex < 0 then container.Obj?
         else container.Arr? && Position(container.items, token) == Ok(resolvedIndex)
    }

    function Assign(child: Json): Json
      requires Valid()
    {
      if resolvedIndex < 0 then Obj(container.members[token.key := child])
      else if resolvedIndex == |container.items| then Arr(container.items + [child])
      else Arr(container.items[resolvedIndex := child])
    }
  }

  ghost predicate ValidPath(path: seq<PathStep>) {
    forall k :: 0 <= k < |path| ==> path[k].Valid()
  }

  ghost function Plug(path: seq<PathStep>, child: Json): Json
    requires ValidPath(path)
  {
    if path == [] then child
    else Plug(path[..|path| - 1], path[|path| - 1].Assign(child))
  }

  method Unwind(path: seq<PathStep>, leafContainer: Json) returns (child: Json)
    requires ValidPath(path)
    ensures child == Plug(path, leafContainer)
  {
    child := leafContainer;
    var n := |path|;
    assert path[..n] == path;
    while n > 0
      invariant 0 <= n <= |path|
      invariant Plug(path[..n], child) == Plug(path, leafContainer)
    {
      n := n - 1;
      assert path[..n + 1][..n] == path[..n];
      var step := path[n];
      if step.resolvedIndex < 0 {
        var members := step.container.members;
        members := members[step.token.key := child];
        child := Obj(members);
      } else {
        var items := step.container.items;
        if step.resolvedIndex == |items| {
          items := items + [child];
        } else {
          items := items[step.resolvedIndex := child];
        }
        child := Arr(items);
      }
    }
  }

  /** What the whole write gives, once the levels in `path` have been descended. */
  ghost function Resume(path: seq<PathStep>, below: Result<Effect, Failure>): Result<Effect, Failure>
    requires ValidPath(path)
  {
    match below
    case Ok(effect) => Ok(Effect(Plug(path, effect.root), effect.removed))
    case Err(f) => Err(Failure(f.error, f.tokenIndex + |path|))
  }

  /** `Update` reads its document only through the container its first token meets. */
  lemma UpdateSameContainer(a: Json, b: Json, tokens: seq<Token>, v: Json, op: WriteOp, create: bool)
    requires tokens != []
    requires Container(a, tokens[0], create) == Container(b, tokens[0], create)
    ensures Update(a, tokens, v, op, create) == Update(b, tokens, v, op, create)
  {
  }

  lemma ResumeStep(path: seq<PathStep>, step: PathStep, create: bool, below: Result<Effect, Failure>)
    requires ValidPath(path) && step.Matches(step.token)
    requires Descend(step.container, step.token, create).Ok?
    ensures ValidPath(path + [step])
    ensures Resume(path + [step], below) == Resume(path, Rebuilt(step.container, step.token, create, below))
  {
    assert (path + [step])[..|path|] == path;
  }

  /** Recording one step of the descent leaves the outcome of the whole write unchanged. */
  lemma ResumeDeeper(path: seq<PathStep>, current: Json, tokens: seq<Token>, step: PathStep, next: Json,
                     v: Json, op: WriteOp, create: bool)
    requires ValidPath(path) && |tokens| > 1
    requires step.container == Container(current, tokens[0], create) && step.Matches(tokens[0])
    requires Descend(step.container, tokens[0], create).Ok?
    requires Container(next, tokens[1], create) ==
             Container(Descend(step.container, tokens[0], create).value, tokens[1], create)
    ensures ValidPath(path + [step])
    ensures Resume(path, Update(current, tokens, v, op, create)) ==
            Resume(path + [step], Update(next, tokens[1..], v, op, create))
  {
    var child := Descend(step.container, tokens[0], create).value;
    UpdateSameContainer(child, next, tokens[1..], v, op, create);
    ResumeStep(path, step, create, Update(next, tokens[1..], v, op, create));
  }

  lemma UpdateAtLeaf(current: Json, tokens: seq<Token>, v: Json, op: WriteOp, create: bool)
    requires |tokens| == 1
    ensures Update(current, tokens, v, op, create) ==
            match WriteLeaf(Container(current, tokens[0], create), tokens[0], v, op)
            case Ok(effect) => Ok(effect)
            case Err(e) => Err(Failure(e, 0))
  {
  }

  lemma UpdateStuck(current: Json, tokens: seq<Token>, v: Json, op: WriteOp, create: bool)
    requires |tokens| > 1
    ensures var down := Descend(Container(current, tokens[0], create), tokens[0], create);
            down.Err? ==> Update(current, tokens, v, op, create) == Err(Failure(down.error, 0))
  {
  }

  /** An lvalue of type QJsonValue: the document a caller passes by reference. */
  class JsonRef {
    var value: Json

    constructor (value: Json)
      ensures this.value == value
    {
      this.value := value;
    }
  }

  /** The leaf switch on an object: edits a detached copy of its members. */
  method EditMember(container: map<Text, Json>, key: Text, newValue: Json, op: WriteOp)
    returns (r: Result<Effect, EvalError>)
    ensures r == WriteMember(container, key, newValue, op)
  {
    var members := container;
    var present := key in members;
    var removed: Option<Json> := None;
    match op {
      case Add =>
        members := members[key := newValue];
      case Replace =>
        if !present {
          return Err(KeyNotFound);
        }
        members := members[key := newValue];
      case Remove =>
        if !present {
          return Err(KeyNotFound);
        }
        removed := Some(members[key]);
        members := members - {key};
    }
    r := Ok(Effect(Obj(members), removed));
  }

  /** The leaf switch on an array: edits a detached copy of its elements. */
  method EditElement(container: seq<Json>, idx: nat, newValue: Json, op: WriteOp)
    returns (r: Result<Effect, EvalError>)
    ensures r == WriteElement(container, idx, newValue, op)
  {
    var items := container;
    var removed: Option<Json> := None;
    match op {
      case Add =>
        if idx > |items| {
          return Err(IndexOutOfRange);
        }
        items := items[..idx] + [newValue] + items[idx..];
      case Replace =>
        if idx >= |items| {
          return Err(IndexOutOfRange);
        }
        items := items[idx := newValue];
      case Remove =>
        if idx >= |items| {
          return Err(IndexOutOfRange);
        }
        removed := Some(items[idx]);
        items := items[..idx] + items[idx + 1..];
    }
    r := Ok(Effect(Arr(items), removed));
  }

  /** The array position a token designates, "-" being the one after the last element. */
  method ResolvePosition(items: seq<Json>, token: Token) returns (r: Result<nat, EvalError>)
    ensures r == Position(items, token)
  {
    if token.IndexToken? {
      r := Ok(token.index);
    } else if IsAppend(token) {
      r := Ok(|items|);
    } else {
      r := Err(TypeMismatchArray);
    }
  }

  method EditLeaf(current: Json, token: Token, newValue: Json, op: WriteOp) returns (r: Result<Effect, EvalError>)
    ensures r == WriteLeaf(current, token, newValue, op)
  {
    if current.Obj? {
      r := EditMember(current.members, token.key, newValue, op);
    } else if current.Arr? {
      var idx := ResolvePosition(current.items, token);
      if idx.Err? {
        return Err(idx.error);
      }
      r := EditElement(current.items, idx.value, newValue, op);
    } else {
      r := Err(TypeMismatchObject);
    }
  }

  /** The step to record and the value to go on from; `next` decides the type of a created container. */
  method StepInto(current: Json, token: Token, next: Token, createIntermediates: bool)
    returns (r: Result<(PathStep, Json), EvalError>)
    ensures r.Ok? ==> r.value.0.container == current && r.value.0.Matches(token)
    ensures match Descend(current, token, createIntermediates)
            case Err(e) => r == Err(e)
            case Ok(child) => r.Ok? && Container(r.value.1, next, createIntermediates)
                                       == Container(child, next, createIntermediates)
  {
    if current.Obj? {
      if token.key in current.members {
        r := Ok((PathStep(current, token, -1), current.members[token.key]));
      } else if createIntermediates {
        r := Ok((PathStep(current, token, -1), Created(next)));
      } else {
        r := Err(KeyNotFound);
      }
    } else if current.Arr? {
      var idx := ResolvePosition(current.items, token);
      if idx.Err? {
        return Err(idx.error);
      }
      if idx.value < |current.items| {
        r := Ok((PathStep(current, token, idx.value), current.items[idx.value]));
      } else if createIntermediates && idx.value == |current.items| {
        r := Ok((PathStep(current, token, idx.value), Created(next)));
      } else {
        r := Err(IndexOutOfRange);
      }
    } else {
      r := Err(TypeMismatchObject);
    }
  }

  method WritePointer(tokens: seq<Token>, root: JsonRef, value: Option<Json>, op: WriteOp, createIntermediates: bool)
    returns (r: Result<Option<Json>, Failure>)
    modifies root
    ensures match Clamped(Write(old(root.value), tokens, value, op, createIntermediates))
            case Ok(effect) => r == Ok(effect.removed) && root.value == effect.root
            case Err(f) => r == Err(f) && root.value == old(root.value)
  {
    var newValue := if value.None? then Null else value.value;
    if tokens == [] {
      if op.Remove? {
        return Err(Failure(CannotRemoveRoot, 0));
      }
      root.value := newValue;
      return Ok(None);
    }

    ghost var whole := Update(root.value, tokens, newValue, op, createIntermediates);
    var path: seq<PathStep> := [];
    var current := root.value;
    var i := 0;
    assert tokens[0..] == tokens;
    while true
      invariant 0 <= i < |tokens| && |path| == i && ValidPath(path)
      invariant root.value == old(root.value)
      invariant whole == Resume(path, Update(current, tokens[i..], newValue, op, createIntermediates))
      decreases |tokens| - i
    {
      var token := tokens[i];
      var errIndex := ClampTokenIndex(i);
      ghost var here := current;
      assert tokens[i..][1..] == tokens[i + 1..];

      // With createIntermediates a null gives way to the container the token needs.
      if current.Null? && createIntermediates {
        current := Created(token);
      }
      if i + 1 == |tokens| {
        UpdateAtLeaf(here, tokens[i..], newValue, op, createIntermediates);
        var edit := EditLeaf(current, token, newValue, op);
        if edit.Err? {
          return Err(Failure(edit.error, errIndex));
        }
        root.value := Unwind(path, edit.value.root);
        return Ok(edit.value.removed);
      }
      var step := StepInto(current, token, tokens[i + 1], createIntermediates);
      if step.Err? {
        UpdateStuck(here, tokens[i..], newValue, op, createIntermediates);
        return Err(Failure(step.error, errIndex));
      }
      ResumeDeeper(path, here, tokens[i..], step.value.0, step.value.1, newValue, op, createIntermediates);
      path := path + [step.value.0];
      current := step.value.1;
      i := i + 1;
    }
  }

  // ---------------------------------------------------------------------
  // Fixed-kind roots and documents
  // ---------------------------------------------------------------------

  datatype RootKind = ObjectRoot | ArrayRoot

  predicate HasKind(j: Json, kind: RootKind) {
    match kind
    case ObjectRoot => j.Obj?
    case ArrayRoot => j.Arr?
  }

  /** QJsonObject& / QJsonArray& overloads: the root may not change its kind. */
  method WriteTypedRoot(tokens: seq<Token>, container: JsonRef, kind: RootKind, value: Option<Json>, op: WriteOp,
                        createIntermediates: bool) returns (r: Result<Option<Json>, Failure>)
    requires if kind.ObjectRoot? then container.value.Obj? else container.value.Arr?
    modifies container
    ensures if kind.ObjectRoot? then container.value.Obj? else container.value.Arr?
    ensures r.Err? ==> container.value == old(container.value)
    ensures match Clamped(Write(old(container.value), tokens, value, op, createIntermediates))
            case Err(f) => r == Err(f)
            case Ok(effect) =>
              if (kind.ObjectRoot? && effect.root.Obj?) || (kind.ArrayRoot? && effect.root.Arr?) then
                r == Ok(effect.removed) && container.value == effect.root
              else r == Err(Failure(RootTypeMismatch, 0))
  {
    var root := new JsonRef(container.value);
    r := WritePointer(tokens, root, value, op, createIntermediates);
    if r.Err? {
      return;
    }
    if !HasKind(root.value, kind) {
      return Err(Failure(RootTypeMismatch, 0));
    }
    container.value := root.value;
  }

  /** A QJsonDocument holds an object, an array, or nothing (read as null). */
  predicate IsDocumentRoot(j: Json) {
    j.IsContainer() || j.Null?
  }

  method WriteDocument(tokens: seq<Token>, doc: JsonRef, value: Option<Json>, op: WriteOp, createIntermediates: bool)
    returns (r: Result<Option<Json>, Failure>)
    requires doc.value.Obj? || doc.value.Arr? || doc.value.Null?
    modifies doc
    ensures doc.value.Obj? || doc.value.Arr? || doc.value.Null?
    ensures r.Err? ==> doc.value == old(doc.value)
    ensures match Clamped(Write(old(doc.value), tokens, value, op, createIntermediates))
            case Err(f) => r == Err(f)
            case Ok(effect) =>
              if effect.root.Obj? || effect.root.Arr? || effect.root.Null? then
                r == Ok(effect.removed) && doc.value == effect.root
              else r == Err(Failure(DocumentRootNotContainer, 0))
  {
    var root := new JsonRef(doc.value);
    r := WritePointer(tokens, root, value, op, createIntermediates);
    if r.Err? {
      return;
    }
    if !IsDocumentRoot(root.value) {
      return Err(Failure(DocumentRootNotContainer, 0));
    }
    doc.value := root.value;
  }
}
