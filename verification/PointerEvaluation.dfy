/** Reading through a compiled JSON Pointer (section 4 of RFC 6901). */
module PointerEvaluation {
  import opened JsonValue

  /**
   * A reference token. `key` is always populated; an `IndexToken` additionally
   * records the number usable as an array position.
   */
  datatype Token = KeyToken(key: Text) | IndexToken(index: nat, key: Text)

  datatype EvalError =
    | CannotRemoveRoot
    | DocumentRootNotContainer
    | IndexOutOfRange
    | KeyNotFound
    | RootTypeMismatch
    | TypeMismatchArray
    | TypeMismatchObject

  datatype Failure = Failure(error: EvalError, tokenIndex: nat)

  const UINT16_MAX: nat := 0xFFFF

  /** The reading of one token relative to the value it meets. */
  function Child(current: Json, token: Token): Result<Json, EvalError> {
    match current
    case Obj(members) =>
      if token.key in members then Ok(members[token.key]) else Err(KeyNotFound)
    case Arr(items) =>
      if token.KeyToken? then Err(TypeMismatchArray)
      else if token.index < |items| then Ok(items[token.index])
      else Err(IndexOutOfRange)
    case _ => Err(TypeMismatchObject)
  }

  /** Failures of a suffix of the pointer, renumbered for the whole pointer. */
  function Deeper<T>(r: Result<T, Failure>): Result<T, Failure> {
    match r
    case Ok(_) => r
    case Err(f) => Err(Failure(f.error, f.tokenIndex + 1))
  }

  /** Pointer resolution as the RFC defines it: one step per token, left to right. */
  function Lookup(doc: Json, tokens: seq<Token>): Result<Json, Failure> {
    if tokens == [] then Ok(doc)
    else
      match Child(doc, tokens[0])
      case Err(e) => Err(Failure(e, 0))
      case Ok(child) => Deeper(Lookup(child, tokens[1..]))
  }

  /** What the library's loop computes: its token counter is 16 bits wide and wraps. */
  function EvaluateFrom(current: Json, tokens: seq<Token>, i: nat): Result<Json, Failure>
    requires i <= UINT16_MAX
    decreases current
  {
    if i >= |tokens| then Ok(current)
    else
      match Child(current, tokens[i])
      case Err(e) => Err(Failure(e, i))
      case Ok(child) => EvaluateFrom(child, tokens, (i + 1) % (UINT16_MAX + 1))
  }

  function Evaluate(doc: Json, tokens: seq<Token>): Result<Json, Failure> {
    EvaluateFrom(doc, tokens, 0)
  }

  method StepObject(current: Json, key: Text) returns (found: bool, next: Json)
    ensures found <==> current.Obj? && key in current.members
    ensures next == if found then current.members[key] else current
  {
    next := current;
    var members: map<Text, Json> := if current.Obj? then current.members else map[];
    found := key in members;
    if found {
      next := members[key];
    }
  }

  method StepArray(current: Json, index: int) returns (found: bool, next: Json)
    ensures found <==> current.Arr? && 0 <= index < |current.items|
    ensures next == if found then current.items[index] else current
  {
    next := current;
    if !current.Arr? {
      return false, next;
    }
    if index < 0 || index >= |current.items| {
      return false, next;
    }
    return true, current.items[index];
  }

  method EvaluatePointer(tokens: seq<Token>, root: Json) returns (r: Result<Json, Failure>)
    ensures r == Evaluate(root, tokens)
    ensures |tokens| <= 65535 ==> r == Lookup(root, tokens)
    ensures r.Ok? <==> |tokens| <= 65535 && Lookup(root, tokens).Ok?
  {
    EvaluateIsLookup(root, tokens);
    if tokens == [] {
      return Ok(root);
    }
    var current := root;
    var i: nat := 0;
    while i < |tokens|
      invariant i <= UINT16_MAX
      invariant Evaluate(root, tokens) == EvaluateFrom(current, tokens, i)
      decreases current
    {
      var token, before := tokens[i], current;
      if current.Obj? {
        var found, next := StepObject(current, token.key);
        current := next;
        if !found {
          return Err(Failure(KeyNotFound, i));
        }
      } else if current.Arr? {
        if !token.IndexToken? {
          return Err(Failure(TypeMismatchArray, i));
        }
        var found, next := StepArray(current, token.index);
        current := next;
        if !found {
          return Err(Failure(IndexOutOfRange, i));
        }
      } else {
        return Err(Failure(TypeMismatchObject, i));
      }
      assert Child(before, token) == Ok(current);
      i := (i + 1) % (UINT16_MAX + 1);
    }
    r := Ok(current);
  }

  lemma {:induction false} EvaluateFromIsLookup(current: Json, tokens: seq<Token>, i: nat)
    requires |tokens| <= UINT16_MAX
    requires i <= |tokens|
    ensures EvaluateFrom(current, tokens, i) ==
            match Lookup(current, tokens[i..])
            case Ok(v) => Ok(v)
            case Err(f) => Err(Failure(f.error, f.tokenIndex + i))
    decreases current
  {
    if i < |tokens| {
      assert tokens[i..][0] == tokens[i] && tokens[i..][1..] == tokens[i + 1..];
      match Child(current, tokens[i])
      case Err(_) =>
      case Ok(child) => EvaluateFromIsLookup(child, tokens, i + 1);
    }
  }

  /** Past 65535 tokens the counter never reaches the end, so the walk falls off the tree. */
  lemma {:induction false} EvaluateFromNeverEnds(current: Json, tokens: seq<Token>, i: nat)
    requires |tokens| > UINT16_MAX
    requires i <= UINT16_MAX
    ensures EvaluateFrom(current, tokens, i).Err?
    decreases current
  {
    match Child(current, tokens[i])
    case Err(_) =>
    case Ok(child) => EvaluateFromNeverEnds(child, tokens, (i + 1) % (UINT16_MAX + 1));
  }

  /** The loop resolves a pointer exactly when the RFC does and it has at most 65535 tokens. */
  lemma EvaluateIsLookup(doc: Json, tokens: seq<Token>)
    ensures |tokens| <= 65535 ==> Evaluate(doc, tokens) == Lookup(doc, tokens)
    ensures Evaluate(doc, tokens).Ok? <==> |tokens| <= 65535 && Lookup(doc, tokens).Ok?
  {
    if |tokens| <= UINT16_MAX {
      EvaluateFromIsLookup(doc, tokens, 0);
      assert tokens[0..] == tokens;
    } else {
      EvaluateFromNeverEnds(doc, tokens, 0);
    }
  }

  /** Resolving a concatenated pointer is resolving its parts one after the other. */
  lemma {:induction false} LookupConcat(doc: Json, p: seq<Token>, q: seq<Token>)
    ensures Lookup(doc, p + q) ==
            match Lookup(doc, p)
            case Err(f) => Err(f)
            case Ok(v) =>
              match Lookup(v, q)
              case Ok(w) => Ok(w)
              case Err(f) => Err(Failure(f.error, f.tokenIndex + |p|))
    decreases |p|
  {
    if p == [] {
      assert p + q == q;
    } else {
      assert (p + q)[0] == p[0] && (p + q)[1..] == p[1..] + q;
      match Child(doc, p[0])
      case Err(_) =>
      case Ok(child) => LookupConcat(child, p[1..], q);
    }
  }
}
