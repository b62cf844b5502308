/** What a write does to the document, seen through pointer evaluation. */
module PointerWriteLaws {
  import opened JsonValue
  import opened PointerEvaluation
  import opened PointerWrite
  import Decimal

  function Element(i: nat): Token {
    IndexToken(i, Decimal.Digits(i))
  }

  function Found(doc: Json, tokens: seq<Token>): Option<Json> {
    match Lookup(doc, tokens)
    case Ok(v) => Some(v)
    case Err(_) => None
  }

  // ---------------------------------------------------------------------
  // Reading back
  // ---------------------------------------------------------------------

  /** The token with a "-" applied to an array replaced by the position it stands for. */
  function ResolvedToken(container: Json, token: Token): Token {
    if container.Arr? && IsAppend(token) then Element(|container.items|) else token
  }

  /** The location a write at `tokens` goes to. */
  function Resolved(doc: Json, tokens: seq<Token>, create: bool): seq<Token>
    decreases |tokens|
  {
    if tokens == [] then []
    else
      var c := Container(doc, tokens[0], create);
      [ResolvedToken(c, tokens[0])] +
      match Descend(c, tokens[0], create)
      case Ok(child) => Resolved(child, tokens[1..], create)
      case Err(_) => tokens[1..]
  }

  lemma ResolvedLeaf(doc: Json, token: Token, create: bool)
    ensures Resolved(doc, [token], create) == [ResolvedToken(Container(doc, token, create), token)]
  {
    assert [token][1..] == [];
    match Descend(Container(doc, token, create), token, create)
    case Ok(child) => assert Resolved(child, [token][1..], create) == [];
    case Err(_) =>
  }

  lemma LeafReadBack(c: Json, token: Token, v: Json, op: WriteOp)
    requires !op.Remove?
    requires WriteLeaf(c, token, v, op).Ok?
    ensures Child(WriteLeaf(c, token, v, op).value.root, ResolvedToken(c, token)) == Ok(v)
  {
  }

  lemma PutReadBack(c: Json, token: Token, create: bool, child: Json)
    requires Descend(c, token, create).Ok?
    ensures Child(Put(c, token, create, child), ResolvedToken(c, token)) == Ok(child)
  {
  }

  /** A successful add, replace or set is read back at the location it resolved to. */
  lemma {:induction false} ReadBack(doc: Json, tokens: seq<Token>, v: Json, op: WriteOp, create: bool)
    requires tokens != [] && !op.Remove?
    requires Update(doc, tokens, v, op, create).Ok?
    ensures Lookup(Update(doc, tokens, v, op, create).value.root, Resolved(doc, tokens, create)) == Ok(v)
    decreases |tokens|
  {
    var c := Container(doc, tokens[0], create);
    var there := Resolved(doc, tokens, create);
    if |tokens| == 1 {
      LeafReadBack(c, tokens[0], v, op);
      ResolvedLeaf(doc, tokens[0], create);
      assert tokens == [tokens[0]] && there[1..] == [];
    } else {
      var child := Descend(c, tokens[0], create).value;
      ReadBack(child, tokens[1..], v, op, create);
      PutReadBack(c, tokens[0], create, Update(child, tokens[1..], v, op, create).value.root);
      assert there[1..] == Resolved(child, tokens[1..], create);
    }
  }

  /**
   * Every successful add, replace or set, at the root too, reads back what was
   * stored (null for Undefined), at any depth.
   */
  lemma WriteReadBack(doc: Json, tokens: seq<Token>, value: Option<Json>, op: WriteOp, create: bool, below: seq<Token>)
    requires !op.Remove?
    requires Write(doc, tokens, value, op, create).Ok?
    ensures Found(Write(doc, tokens, value, op, create).value.root, Resolved(doc, tokens, create) + below) ==
            Found(if value.Some? then value.value else Null, below)
  {
    if tokens == [] {
      assert [] + below == below;
    } else {
      ReadBack(doc, tokens, Stored(value), op, create);
      LookupConcat(Write(doc, tokens, value, op, create).value.root, Resolved(doc, tokens, create), below);
    }
  }

  /** Only "-" tokens met by an array are rewritten; without one, the pointer itself reads back. */
  lemma {:induction false} ResolvedIsSame(doc: Json, tokens: seq<Token>, create: bool)
    requires forall i :: 0 <= i < |tokens| ==> !IsAppend(tokens[i])
    ensures Resolved(doc, tokens, create) == tokens
    decreases |tokens|
  {
    if tokens != [] {
      var c := Container(doc, tokens[0], create);
      match Descend(c, tokens[0], create)
      case Ok(child) => ResolvedIsSame(child, tokens[1..], create);
      case Err(_) =>
    }
  }

  // ---------------------------------------------------------------------
  // What createIntermediates makes
  // ---------------------------------------------------------------------

  /** Nothing is there yet before the `i`-th token is applied. */
  predicate NothingAt(doc: Json, tokens: seq<Token>, i: nat)
    requires i <= |tokens|
  {
    Found(doc, tokens[..i]).GetOr(Null).Null?
  }

  /** The place that the `i`-th token designates: for "-", the end of the array there, or the start of one to come. */
  function Spot(doc: Json, tokens: seq<Token>, i: nat): Token
    requires i < |tokens|
  {
    var met := Found(doc, tokens[..i]).GetOr(Null);
    if !(tokens[i].KeyToken? && tokens[i].key == [0x2D]) then tokens[i]
    else if met.Arr? then Element(|met.items|)
    else if met.Null? then Element(0)
    else tokens[i]
  }

  function Spots(doc: Json, tokens: seq<Token>): (r: seq<Token>)
    ensures |r| == |tokens| && forall i :: 0 <= i < |tokens| ==> r[i] == Spot(doc, tokens, i)
  {
    seq(|tokens|, i requires 0 <= i < |tokens| => Spot(doc, tokens, i))
  }

  /** Below the first token, the places are those of the value it leads to. */
  lemma FoundBelow(doc: Json, tokens: seq<Token>, i: nat)
    requires 0 < i <= |tokens|
    ensures Found(doc, tokens[..i]) == match Child(doc, tokens[0])
                                       case Ok(child) => Found(child, tokens[1..][..i - 1])
                                       case Err(_) => None
  {
    assert tokens[..i][0] == tokens[0] && tokens[..i][1..] == tokens[1..][..i - 1];
    FoundStep(doc, tokens[..i]);
  }

  lemma NothingBelowNull(tokens: seq<Token>, i: nat)
    requires i <= |tokens|
    ensures NothingAt(Null, tokens, i)
  {
    if i > 0 {
      FoundBelow(Null, tokens, i);
    } else {
      assert tokens[..0] == [];
    }
  }

  /** With createIntermediates the write goes on from the child, or from null where there is none. */
  lemma GoesOnFrom(doc: Json, tokens: seq<Token>, child: Json, i: nat)
    requires 0 < i <= |tokens| && Descend(Container(doc, tokens[0], true), tokens[0], true) == Ok(child)
    ensures Found(doc, tokens[..i]).GetOr(Null) == Found(child, tokens[1..][..i - 1]).GetOr(Null)
  {
    FoundBelow(doc, tokens, i);
    if Child(doc, tokens[0]).Err? {
      NothingBelowNull(tokens[1..], i - 1);
    }
  }

  lemma SpotsBelow(doc: Json, tokens: seq<Token>, child: Json)
    requires tokens != [] && Descend(Container(doc, tokens[0], true), tokens[0], true) == Ok(child)
    ensures Spots(doc, tokens) == [Spot(doc, tokens, 0)] + Spots(child, tokens[1..])
  {
    forall i | 0 < i < |tokens|
      ensures Spot(doc, tokens, i) == Spot(child, tokens[1..], i - 1)
    {
      GoesOnFrom(doc, tokens, child, i);
    }
  }

  lemma FirstSpot(doc: Json, tokens: seq<Token>)
    requires tokens != []
    requires WriteLeaf(Container(doc, tokens[0], true), tokens[0], Null, Add).Ok?
             || Descend(Container(doc, tokens[0], true), tokens[0], true).Ok?
    ensures Spot(doc, tokens, 0) == ResolvedToken(Container(doc, tokens[0], true), tokens[0])
  {
    assert tokens[..0] == [];
  }

  lemma LeafErrorIsTheSame(c: Json, token: Token, v: Json, w: Json)
    requires WriteLeaf(c, token, v, Add).Ok?
    ensures WriteLeaf(c, token, w, Add).Ok?
  {
  }

  /** The location a successful set goes to is made of these places. */
  lemma {:induction false} ResolvedIsSpots(doc: Json, tokens: seq<Token>, v: Json)
    requires tokens != [] && Update(doc, tokens, v, Add, true).Ok?
    ensures Resolved(doc, tokens, true) == Spots(doc, tokens)
    decreases |tokens|
  {
    var c := Container(doc, tokens[0], true);
    if |tokens| == 1 {
      LeafErrorIsTheSame(c, tokens[0], v, Null);
      FirstSpot(doc, tokens);
      ResolvedLeaf(doc, tokens[0], true);
      assert tokens == [tokens[0]];
      assert Spots(doc, tokens) == [Spot(doc, tokens, 0)];
    } else {
      var child := Descend(c, tokens[0], true).value;
      FirstSpot(doc, tokens);
      SpotsBelow(doc, tokens, child);
      ResolvedIsSpots(child, tokens[1..], v);
    }
  }

  /** An array where index 0 or "-" is applied, otherwise an object, with nothing in it but what the token names. */
  predicate MadeFor(token: Token, made: Json) {
    if (token.IndexToken? && token.index == 0) || (token.KeyToken? && token.key == [0x2D]) then
      made.Arr? && |made.items| == 1
    else made.Obj? && made.members.Keys == {token.key}
  }

  /** A set with createIntermediates makes what is missing, as the token that is applied to it needs. */
  lemma {:induction false} MissingIsMade(doc: Json, tokens: seq<Token>, v: Json, i: nat)
    requires i < |tokens| && Update(doc, tokens, v, Add, true).Ok? && NothingAt(doc, tokens, i)
    ensures var made := Found(Update(doc, tokens, v, Add, true).value.root, Spots(doc, tokens)[..i]);
            made.Some? && MadeFor(tokens[i], made.value)
    decreases |tokens|
  {
    var c, spots := Container(doc, tokens[0], true), Spots(doc, tokens);
    var root := Update(doc, tokens, v, Add, true).value.root;
    if i == 0 {
      assert tokens[..0] == [] && spots[..0] == [];
    } else {
      var child := Descend(c, tokens[0], true).value;
      var below := Update(child, tokens[1..], v, Add, true).value.root;
      FirstSpot(doc, tokens);
      SpotsBelow(doc, tokens, child);
      GoesOnFrom(doc, tokens, child, i);
      MissingIsMade(child, tokens[1..], v, i - 1);
      PutReadBack(c, tokens[0], true, below);
      FoundBelow(root, spots, i);
      assert spots[1..] == Spots(child, tokens[1..]);
    }
  }

  // ---------------------------------------------------------------------
  // Frame
  // ---------------------------------------------------------------------

  /** Where the array element `i` is after the write at position `idx`; `None` when overwritten or taken out. */
  function MovedElement(idx: nat, i: nat, op: WriteOp): Option<nat> {
    match op
    case Add => Some(if i < idx then i else i + 1)
    case Replace => if i == idx then None else Some(i)
    case Remove => if i == idx then None else Some(if i < idx then i else i - 1)
  }

  /**
   * Where the location `q` is found after a write at `p`. `None` when `q` is an
   * ancestor of the written place, or is at or below a place overwritten or
   * taken out.
   */
  function Moved(doc: Json, p: seq<Token>, q: seq<Token>, op: WriteOp, create: bool): Option<seq<Token>>
    requires p != []
    decreases |p|
  {
    if q == [] then None
    else
      var c := Container(doc, p[0], create);
      match c
      case Obj(members) =>
        if q[0].key != p[0].key then Some(q)
        else if |p| == 1 then None
        else MovedBelow(c, p, q, op, create)
      case Arr(items) =>
        if q[0].KeyToken? || Position(items, p[0]).Err? then Some(q)
        else
          var idx := Position(items, p[0]).value;
          if |p| > 1 then
            if q[0].index != idx then Some(q) else MovedBelow(c, p, q, op, create)
          else
            (match MovedElement(idx, q[0].index, op)
             case None => None
             case Some(i) => if i == q[0].index then Some(q) else Some([Element(i)] + q[1..]))
      case _ => Some(q)
  }

  function MovedBelow(c: Json, p: seq<Token>, q: seq<Token>, op: WriteOp, create: bool): Option<seq<Token>>
    requires |p| > 1 && q != []
    decreases |p|, 0
  {
    match Descend(c, p[0], create)
    case Err(_) => Some(q)
    case Ok(child) =>
      match Moved(child, p[1..], q[1..], op, create)
      case None => None
      case Some(r) => Some([q[0]] + r)
  }

  lemma FoundStep(doc: Json, q: seq<Token>)
    requires q != []
    ensures Found(doc, q) == match Child(doc, q[0])
                             case Ok(child) => Found(child, q[1..])
                             case Err(_) => None
  {
  }

  /** The element case at the written level: everything shifts by exactly one, or not at all. */
  lemma ElementFrame(items: seq<Json>, idx: nat, i: nat, v: Json, op: WriteOp)
    requires WriteElement(items, idx, v, op).Ok?
    requires MovedElement(idx, i, op).Some?
    ensures var after := WriteElement(items, idx, v, op).value.root.items;
            var j := MovedElement(idx, i, op).value;
            (i < |items| <==> j < |after|) && (i < |items| ==> after[j] == items[i])
  {
  }

  lemma LeafFrame(c: Json, token: Token, v: Json, op: WriteOp, create: bool, q: seq<Token>)
    requires q != []
    requires WriteLeaf(c, token, v, op).Ok?
    requires Moved(c, [token], q, op, create).Some?
    ensures Found(WriteLeaf(c, token, v, op).value.root, Moved(c, [token], q, op, create).value) == Found(c, q)
  {
    var after := WriteLeaf(c, token, v, op).value.root;
    var r := Moved(c, [token], q, op, create).value;
    FoundStep(c, q);
    FoundStep(after, r);
    if c.Arr? && q[0].IndexToken? {
      var idx := Position(c.items, token).value;
      ElementFrame(c.items, idx, q[0].index, v, op);
      assert r[1..] == q[1..];
    }
  }

  /** A fresh container holds nothing, exactly like the null it replaces. */
  lemma FoundInContainer(doc: Json, token: Token, create: bool, q: seq<Token>)
    requires q != []
    ensures Found(Container(doc, token, create), q) == Found(doc, q)
  {
    FoundStep(doc, q);
    FoundStep(Container(doc, token, create), q);
  }

  /** Assigning one child leaves every other member or element as it was. */
  lemma PutFrame(c: Json, token: Token, create: bool, child: Json, q: seq<Token>)
    requires q != []
    requires Descend(c, token, create).Ok?
    requires if c.Obj? then q[0].key != token.key
             else q[0].KeyToken? || Position(c.items, token) != Ok(q[0].index)
    ensures Found(Put(c, token, create, child), q) == Found(c, q)
  {
    FoundStep(c, q);
    FoundStep(Put(c, token, create, child), q);
  }

  /** `q` starts with the child `p` descends into. */
  lemma SameChild(c: Json, token: Token, create: bool, q: seq<Token>)
    requires q != []
    requires Descend(c, token, create).Ok?
    requires if c.Obj? then q[0].key == token.key
             else q[0].IndexToken? && Position(c.items, token) == Ok(q[0].index)
    ensures forall child :: Child(Put(c, token, create, child), q[0]) == Ok(child)
    ensures q[1..] != [] ==> Found(c, q) == Found(Descend(c, token, create).value, q[1..])
  {
    FoundStep(c, q);
    if q[1..] != [] {
      FoundStep(Descend(c, token, create).value, q[1..]);
    }
  }

  /** After a successful write every location outside the written place holds what it held, where `Moved` says. */
  lemma {:induction false} Frame(doc: Json, p: seq<Token>, q: seq<Token>, v: Json, op: WriteOp, create: bool)
    requires p != []
    requires Update(doc, p, v, op, create).Ok?
    requires Moved(doc, p, q, op, create).Some?
    ensures Found(Update(doc, p, v, op, create).value.root, Moved(doc, p, q, op, create).value) == Found(doc, q)
    decreases |p|
  {
    var c := Container(doc, p[0], create);
    FoundInContainer(doc, p[0], create, q);
    if |p| == 1 {
      assert p == [p[0]];
      LeafFrame(c, p[0], v, op, create, q);
    } else {
      var child := Descend(c, p[0], create).value;
      var below := Update(child, p[1..], v, op, create).value.root;
      if (if c.Obj? then q[0].key != p[0].key else q[0].KeyToken? || Position(c.items, p[0]) != Ok(q[0].index)) {
        PutFrame(c, p[0], create, below, q);
      } else {
        var r := Moved(child, p[1..], q[1..], op, create).value;
        Frame(child, p[1..], q[1..], v, op, create);
        SameChild(c, p[0], create, q);
        FoundStep(Put(c, p[0], create, below), [q[0]] + r);
        assert ([q[0]] + r)[1..] == r;
      }
    }
  }

  // ---------------------------------------------------------------------
  // When a write succeeds
  // ---------------------------------------------------------------------

  /** What a write reports where a read reports `f`: only a "-" met by an array is called by another name. */
  function WriteFailure(doc: Json, tokens: seq<Token>, f: Failure): Failure
    requires f.tokenIndex < |tokens|
  {
    var met := Found(doc, tokens[..f.tokenIndex]);
    if met.Some? && met.value.Arr? && IsAppend(tokens[f.tokenIndex]) then Failure(IndexOutOfRange, f.tokenIndex)
    else f
  }

  lemma WriteFailureBelow(doc: Json, tokens: seq<Token>, child: Json, f: Failure)
    requires tokens != [] && Child(doc, tokens[0]) == Ok(child) && f.tokenIndex < |tokens| - 1
    ensures var below := WriteFailure(child, tokens[1..], f);
            WriteFailure(doc, tokens, Failure(f.error, f.tokenIndex + 1)) == Failure(below.error, below.tokenIndex + 1)
  {
    var i := f.tokenIndex;
    assert tokens[..i + 1][0] == tokens[0] && tokens[..i + 1][1..] == tokens[1..][..i];
    FoundStep(doc, tokens[..i + 1]);
  }

  lemma LeafMustExist(c: Json, token: Token, v: Json, op: WriteOp)
    requires !op.Add?
    ensures match Child(c, token)
            case Ok(there) =>
              && WriteLeaf(c, token, v, op).Ok?
              && (op.Remove? ==> WriteLeaf(c, token, v, op).value.removed == Some(there))
            case Err(e) => WriteLeaf(c, token, v, op) == Err(if c.Arr? && IsAppend(token) then IndexOutOfRange else e)
  {
  }

  /** Reading a single token. */
  lemma LookupOne(doc: Json, token: Token)
    ensures Lookup(doc, [token]) == match Child(doc, token)
                                    case Ok(child) => Ok(child)
                                    case Err(e) => Err(Failure(e, 0))
  {
    assert [token][1..] == [];
    match Child(doc, token)
    case Ok(child) => assert Lookup(child, []) == Ok(child);
    case Err(_) =>
  }

  lemma DescendIsChild(c: Json, token: Token)
    ensures match Child(c, token)
            case Ok(child) => Descend(c, token, false) == Ok(child)
            case Err(e) => Descend(c, token, false) == Err(if c.Arr? && IsAppend(token) then IndexOutOfRange else e)
  {
  }

  lemma LookupDeeper(doc: Json, tokens: seq<Token>, child: Json)
    requires tokens != [] && Child(doc, tokens[0]) == Ok(child)
    ensures Lookup(doc, tokens) == Deeper(Lookup(child, tokens[1..]))
  {
  }

  /** What a removal or replacement makes of what reading the location gives. */
  predicate DoneAtTarget(doc: Json, tokens: seq<Token>, op: WriteOp, r: Result<Effect, Failure>) {
    match Lookup(doc, tokens)
    case Ok(there) => r.Ok? && (op.Remove? ==> r.value.removed == Some(there))
    case Err(f) => f.tokenIndex < |tokens| && r == Err(WriteFailure(doc, tokens, f))
  }

  lemma DoneAtLeaf(doc: Json, token: Token, v: Json, op: WriteOp)
    requires !op.Add?
    ensures DoneAtTarget(doc, [token], op, Update(doc, [token], v, op, false))
  {
    LookupOne(doc, token);
    LeafMustExist(doc, token, v, op);
    assert [token][..0] == [];
  }

  lemma DoneBelow(doc: Json, tokens: seq<Token>, child: Json, op: WriteOp, below: Result<Effect, Failure>)
    requires |tokens| > 1 && Child(doc, tokens[0]) == Ok(child) && DoneAtTarget(child, tokens[1..], op, below)
    ensures DoneAtTarget(doc, tokens, op, Rebuilt(doc, tokens[0], false, below))
  {
    LookupDeeper(doc, tokens, child);
    match Lookup(child, tokens[1..])
    case Ok(_) =>
    case Err(f) => WriteFailureBelow(doc, tokens, child, f);
  }

  lemma NoWayDown(doc: Json, tokens: seq<Token>, v: Json, op: WriteOp)
    requires |tokens| > 1 && !op.Add? && Child(doc, tokens[0]).Err?
    ensures DoneAtTarget(doc, tokens, op, Update(doc, tokens, v, op, false))
  {
    DescendIsChild(doc, tokens[0]);
    assert tokens[..0] == [];
  }

  /** A removal or replacement succeeds exactly when the location exists, and a removal returns what was there. */
  lemma {:induction false} TargetMustExist(doc: Json, tokens: seq<Token>, v: Json, op: WriteOp)
    requires tokens != [] && !op.Add?
    ensures DoneAtTarget(doc, tokens, op, Update(doc, tokens, v, op, false))
    decreases |tokens|
  {
    if |tokens| == 1 {
      assert tokens == [tokens[0]];
      DoneAtLeaf(doc, tokens[0], v, op);
    } else {
      match Child(doc, tokens[0])
      case Err(_) => NoWayDown(doc, tokens, v, op);
      case Ok(child) =>
        DescendIsChild(doc, tokens[0]);
        TargetMustExist(child, tokens[1..], v, op);
        DoneBelow(doc, tokens, child, op, Update(child, tokens[1..], v, op, false));
    }
  }

  /** Read through "-", an array has the wrong type; written to, the index is out of range. */
  lemma AppendTokenIsNamedTwice(items: seq<Json>, v: Json)
    ensures var end: seq<Token> := [KeyToken(Ascii("-"))];
            && Evaluate(Arr(items), end) == Err(Failure(TypeMismatchArray, 0))
            && Update(Arr(items), end, v, Replace, false) == Err(Failure(IndexOutOfRange, 0))
  {
    var end: seq<Token> := [KeyToken([MINUS])];
    EvaluateIsLookup(Arr(items), end);
    TargetMustExist(Arr(items), end, v, Replace);
    assert end[..0] == [];
  }

  /** The library's own reading loop agrees with removal exactly up to the 65535 tokens its counter can number. */
  lemma RemoveIffEvaluate(doc: Json, tokens: seq<Token>)
    requires tokens != []
    ensures Evaluate(doc, tokens).Ok? <==> |tokens| <= 65535 && Write(doc, tokens, None, Remove, false).Ok?
    ensures Evaluate(doc, tokens).Ok? ==>
              Write(doc, tokens, None, Remove, false).value.removed == Some(Evaluate(doc, tokens).value)
  {
    EvaluateIsLookup(doc, tokens);
    TargetMustExist(doc, tokens, Null, Remove);
  }

  /** What stops a write with createIntermediates at a container it meets. */
  predicate Blocks(container: Json, token: Token) {
    match container
    case Obj(_) => false
    case Null => false
    case Arr(items) => if token.IndexToken? then token.index > |items| else !IsAppend(token)
    case _ => true
  }

  function BlockError(container: Json, token: Token): EvalError {
    if !container.Arr? then TypeMismatchObject
    else if token.IndexToken? then IndexOutOfRange
    else TypeMismatchArray
  }

  predicate BlockedAt(doc: Json, tokens: seq<Token>, i: nat) {
    i < |tokens| && Found(doc, tokens[..i]).Some? && Blocks(Found(doc, tokens[..i]).value, tokens[i])
  }

  /** With createIntermediates a set fails only where an existing value stands in the way, and says where and why. */
  lemma {:induction false} SetFailsOnlyWhenBlocked(doc: Json, tokens: seq<Token>, v: Json)
    requires tokens != []
    ensures var r := Update(doc, tokens, v, Add, true);
            && (r.Err? ==> var i := r.error.tokenIndex;
                           && BlockedAt(doc, tokens, i)
                           && r.error.error == BlockError(Found(doc, tokens[..i]).value, tokens[i]))
            && (r.Ok? ==> forall i :: !BlockedAt(doc, tokens, i))
    decreases |tokens|
  {
    var r := Update(doc, tokens, v, Add, true);
    var c := Container(doc, tokens[0], true);
    assert tokens[..0] == [];
    if |tokens| > 1 && Descend(c, tokens[0], true).Ok? {
      var child := Descend(c, tokens[0], true).value;
      SetFailsOnlyWhenBlocked(child, tokens[1..], v);
      forall i: nat | 0 < i < |tokens|
        ensures BlockedAt(doc, tokens, i) <==> Child(doc, tokens[0]).Ok? && BlockedAt(child, tokens[1..], i - 1)
        ensures Child(doc, tokens[0]).Ok? ==> Found(doc, tokens[..i]) == Found(child, tokens[1..][..i - 1])
      {
        assert tokens[..i][0] == tokens[0] && tokens[..i][1..] == tokens[1..][..i - 1];
        FoundStep(doc, tokens[..i]);
      }
    }
  }

  /** Setting any pointer in an empty (null) document with createIntermediates never fails. */
  lemma {:induction false} SetFromNull(tokens: seq<Token>, v: Json)
    requires tokens != []
    ensures Update(Null, tokens, v, Add, true).Ok?
    decreases |tokens|
  {
    if |tokens| > 1 {
      SetFromNull(tokens[1..], v);
    }
  }

  /** A pointer one token longer than the counter of the reading loop has numbers for. */
  function LongPointer(): seq<Token> {
    seq(UINT16_MAX + 1, _ => KeyToken([0x61]))
  }

  /** A set through it succeeds and puts the value where resolution finds it; the reading loop does not. */
  lemma LongPointerIsLost(v: Json)
    ensures var r := Write(Null, LongPointer(), Some(v), Add, true);
            && r.Ok? && Found(r.value.root, LongPointer()) == Some(v)
            && Evaluate(r.value.root, LongPointer()).Err?
  {
    var tokens := LongPointer();
    SetFromNull(tokens, v);
    var root := Write(Null, tokens, Some(v), Add, true).value.root;
    WriteReadBack(Null, tokens, Some(v), Add, true, []);
    ResolvedIsSame(Null, tokens, true);
    assert tokens + [] == tokens;
    EvaluateIsLookup(root, tokens);
  }

  /** What an add without createIntermediates makes of what reading its parent gives. */
  predicate AddedAtParent(doc: Json, tokens: seq<Token>, r: Result<Effect, Failure>)
    requires tokens != []
  {
    var last := |tokens| - 1;
    match Lookup(doc, tokens[..last])
    case Err(f) => f.tokenIndex < last && r == Err(WriteFailure(doc, tokens, f))
    case Ok(parent) =>
      if parent.IsContainer() && !Blocks(parent, tokens[last]) then r.Ok?
      else r == Err(Failure(BlockError(parent, tokens[last]), last))
  }

  lemma AddedBelow(doc: Json, tokens: seq<Token>, child: Json, below: Result<Effect, Failure>)
    requires |tokens| > 1 && Child(doc, tokens[0]) == Ok(child) && Descend(doc, tokens[0], false) == Ok(child)
    requires AddedAtParent(child, tokens[1..], below)
    ensures AddedAtParent(doc, tokens, Rebuilt(doc, tokens[0], false, below))
  {
    var up, down := tokens[..|tokens| - 1], tokens[1..][..|tokens| - 2];
    assert up[0] == tokens[0] && up[1..] == down;
    LookupDeeper(doc, up, child);
    match Lookup(child, down)
    case Ok(_) =>
    case Err(f) => WriteFailureBelow(doc, tokens, child, f);
  }

  /** Without createIntermediates an add needs an existing parent with room at the designated place. */
  lemma {:induction false} AddNeedsParent(doc: Json, tokens: seq<Token>, v: Json)
    requires tokens != []
    ensures AddedAtParent(doc, tokens, Update(doc, tokens, v, Add, false))
    decreases |tokens|
  {
    if |tokens| == 1 {
      assert tokens[..0] == [];
    } else {
      DescendIsChild(doc, tokens[0]);
      match Child(doc, tokens[0])
      case Ok(child) =>
        AddNeedsParent(child, tokens[1..], v);
        AddedBelow(doc, tokens, child, Update(child, tokens[1..], v, Add, false));
      case Err(e) =>
        var up := tokens[..|tokens| - 1];
        assert up[0] == tokens[0] && tokens[..0] == [];
        assert Lookup(doc, up) == Err(Failure(e, 0));
    }
  }

  // ---------------------------------------------------------------------
  // Inverses
  // ---------------------------------------------------------------------

  lemma LeafAddUndoesRemove(c: Json, token: Token, v: Json)
    requires WriteLeaf(c, token, v, Remove).Ok?
    ensures var cut := WriteLeaf(c, token, v, Remove).value;
            cut.removed.Some? && WriteLeaf(cut.root, token, cut.removed.value, Add) == Ok(Effect(c, None))
  {
    var cut := WriteLeaf(c, token, v, Remove).value;
    match c
    case Obj(members) =>
      assert (members - {token.key})[token.key := members[token.key]] == members;
    case Arr(items) =>
      var idx := Position(items, token).value;
      var rest := items[..idx] + items[idx + 1..];
      assert rest[..idx] + [items[idx]] + rest[idx..] == items;
    case _ =>
  }

  /** Descending again into a level just rebuilt, and rebuilding it with its old child, restores it. */
  lemma PutBack(c: Json, token: Token, below: Json, child: Json)
    requires Descend(c, token, false) == Ok(child)
    ensures Descend(Put(c, token, false, below), token, false) == Ok(below)
    ensures Put(Put(c, token, false, below), token, false, child) == c
  {
    match c
    case Obj(members) =>
      assert members[token.key := below][token.key := child] == members;
    case Arr(items) =>
      var idx := Position(items, token).value;
      assert items[idx := below][idx := child] == items;
    case _ =>
  }

  /** Adding a removed value back where it was restores the document. */
  lemma {:induction false} AddUndoesRemove(doc: Json, tokens: seq<Token>, v: Json)
    requires tokens != []
    requires Update(doc, tokens, v, Remove, false).Ok?
    ensures var cut := Update(doc, tokens, v, Remove, false).value;
            cut.removed.Some? && Update(cut.root, tokens, cut.removed.value, Add, false) == Ok(Effect(doc, None))
    decreases |tokens|
  {
    if |tokens| == 1 {
      LeafAddUndoesRemove(doc, tokens[0], v);
    } else {
      var child := Descend(doc, tokens[0], false).value;
      AddUndoesRemove(child, tokens[1..], v);
      PutBack(doc, tokens[0], Update(child, tokens[1..], v, Remove, false).value.root, child);
    }
  }

  /** The add names a member the object at its parent already has. */
  predicate Overwrites(doc: Json, tokens: seq<Token>) {
    && tokens != []
    && var parent := Found(doc, tokens[..|tokens| - 1]);
    && parent.Some? && parent.value.Obj? && tokens[|tokens| - 1].key in parent.value.members
  }

  lemma LeafRemoveUndoesAdd(c: Json, token: Token, v: Json, w: Json)
    requires WriteLeaf(c, token, v, Add).Ok?
    ensures var grown := WriteLeaf(c, token, v, Add).value.root;
            var cut := WriteLeaf(grown, ResolvedToken(c, token), w, Remove);
            && cut.Ok? && cut.value.removed == Some(v)
            && (cut.value.root == c <==> !(c.Obj? && token.key in c.members))
  {
    match c
    case Obj(members) =>
      var cut := members[token.key := v] - {token.key};
      assert token.key !in cut;
      if token.key !in members {
        assert cut == members;
      }
    case Arr(items) =>
      var idx := Position(items, token).value;
      var grown := items[..idx] + [v] + items[idx..];
      assert grown[..idx] + grown[idx + 1..] == items;
    case _ =>
  }

  lemma OverwritesBelow(doc: Json, tokens: seq<Token>, child: Json)
    requires |tokens| > 1 && Descend(doc, tokens[0], false) == Ok(child)
    ensures Overwrites(doc, tokens) <==> Overwrites(child, tokens[1..])
  {
    var up := tokens[..|tokens| - 1];
    assert up[0] == tokens[0] && up[1..] == tokens[1..][..|tokens| - 2];
    FoundStep(doc, up);
  }

  /** Both writes go through the child: the container is restored exactly when the child is. */
  lemma RemoveBelow(doc: Json, tokens: seq<Token>, there: seq<Token>, v: Json, w: Json)
    requires |tokens| > 1 && |there| > 1 && there[0] == tokens[0]
    requires Update(doc, tokens, v, Add, false).Ok?
    requires var child := Descend(doc, tokens[0], false).value;
             Update(Update(child, tokens[1..], v, Add, false).value.root, there[1..], w, Remove, false).Ok?
    ensures var child := Descend(doc, tokens[0], false).value;
            var below := Update(Update(child, tokens[1..], v, Add, false).value.root, there[1..], w, Remove, false);
            var cut := Update(Update(doc, tokens, v, Add, false).value.root, there, w, Remove, false);
            && cut.Ok? && cut.value.removed == below.value.removed
            && (cut.value.root == doc <==> below.value.root == child)
  {
    var child := Descend(doc, tokens[0], false).value;
    var grown := Update(child, tokens[1..], v, Add, false).value.root;
    var cut := Update(grown, there[1..], w, Remove, false).value.root;
    PutBack(doc, tokens[0], grown, child);
    PutBack(Put(doc, tokens[0], false, grown), tokens[0], cut, grown);
    PutTwice(doc, tokens[0], grown, cut);
  }

  /** Removing what an add put in restores the document exactly when the add overwrote nothing. */
  lemma {:induction false} RemoveUndoesAdd(doc: Json, tokens: seq<Token>, v: Json, w: Json)
    requires tokens != []
    requires Update(doc, tokens, v, Add, false).Ok?
    ensures var grown := Update(doc, tokens, v, Add, false).value.root;
            var cut := Update(grown, Resolved(doc, tokens, false), w, Remove, false);
            && cut.Ok? && cut.value.removed == Some(v)
            && (cut.value.root == doc <==> !Overwrites(doc, tokens))
    decreases |tokens|
  {
    var there := Resolved(doc, tokens, false);
    if |tokens| == 1 {
      assert tokens == [tokens[0]] && tokens[..0] == [];
      ResolvedLeaf(doc, tokens[0], false);
      LeafRemoveUndoesAdd(doc, tokens[0], v, w);
    } else {
      var child := Descend(doc, tokens[0], false).value;
      RemoveUndoesAdd(child, tokens[1..], v, w);
      assert there == [tokens[0]] + Resolved(child, tokens[1..], false);
      assert there[1..] == Resolved(child, tokens[1..], false);
      assert Resolved(child, tokens[1..], false) != [];
      RemoveBelow(doc, tokens, there, v, w);
      OverwritesBelow(doc, tokens, child);
    }
  }

  lemma PutTwice(c: Json, token: Token, first: Json, second: Json)
    requires Descend(c, token, false).Ok?
    requires Descend(Put(c, token, false, first), token, false).Ok?
    ensures Put(Put(c, token, false, first), token, false, second) == Put(c, token, false, second)
    ensures Put(c, token, false, second) == c <==> second == Descend(c, token, false).value
  {
    match c
    case Obj(members) =>
      assert members[token.key := first][token.key := second] == members[token.key := second];
      assert members[token.key := second][token.key] == second;
      if second == members[token.key] {
        assert members[token.key := second] == members;
      }
    case Arr(items) =>
      var idx := Position(items, token).value;
      assert items[idx := first][idx := second] == items[idx := second];
      assert items[idx := second][idx] == second;
      if second == items[idx] {
        assert items[idx := second] == items;
      }
    case _ =>
  }

  /** Replacing twice keeps only the second value; replacing by the old value restores the document. */
  lemma {:induction false} LastReplaceWins(doc: Json, tokens: seq<Token>, v: Json, w: Json)
    requires tokens != []
    requires Update(doc, tokens, v, Replace, false).Ok?
    ensures var first := Update(doc, tokens, v, Replace, false).value.root;
            Update(first, tokens, w, Replace, false) == Update(doc, tokens, w, Replace, false)
    ensures Lookup(doc, tokens) == Ok(w) ==> Update(doc, tokens, w, Replace, false) == Ok(Effect(doc, None))
    decreases |tokens|
  {
    if |tokens| == 1 {
      assert tokens[1..] == [];
      FoundStep(doc, tokens);
      match doc
      case Obj(members) =>
        assert members[tokens[0].key := v][tokens[0].key := w] == members[tokens[0].key := w];
        if members[tokens[0].key] == w {
          assert members[tokens[0].key := w] == members;
        }
      case Arr(items) =>
        var idx := Position(items, tokens[0]).value;
        assert items[idx := v][idx := w] == items[idx := w];
        if items[idx] == w {
          assert items[idx := w] == items;
        }
      case _ =>
    } else {
      var child := Descend(doc, tokens[0], false).value;
      LastReplaceWins(child, tokens[1..], v, w);
      var first := Update(child, tokens[1..], v, Replace, false).value.root;
      PutBack(doc, tokens[0], first, child);
      TargetMustExist(child, tokens[1..], v, Replace);
      TargetMustExist(child, tokens[1..], w, Replace);
      PutTwice(doc, tokens[0], first, Update(child, tokens[1..], w, Replace, false).value.root);
    }
  }

  // ---------------------------------------------------------------------
  // Independence
  // ---------------------------------------------------------------------

  /** The two pointers part at some existing container, where they name different children. */
  predicate Apart(doc: Json, p: seq<Token>, q: seq<Token>)
    decreases |p|
  {
    && p != [] && q != []
    && match doc
       case Obj(members) =>
         p[0].key != q[0].key || (p[0].key in members && Apart(members[p[0].key], p[1..], q[1..]))
       case Arr(items) =>
         && p[0].IndexToken? && q[0].IndexToken?
         && (p[0].index != q[0].index || (p[0].index < |items| && Apart(items[p[0].index], p[1..], q[1..])))
       case _ => false
  }

  function Replaced(doc: Json, tokens: seq<Token>, v: Json): Option<Json>
    requires tokens != []
  {
    match Update(doc, tokens, v, Replace, false)
    case Ok(effect) => Some(effect.root)
    case Err(_) => None
  }

  /** One level of a replacement: the child named first is replaced or rebuilt, or there is none. */
  function NewChild(doc: Json, tokens: seq<Token>, v: Json): Option<Json>
    requires tokens != []
  {
    match Child(doc, tokens[0])
    case Err(_) => None
    case Ok(child) => if |tokens| == 1 then Some(v) else Replaced(child, tokens[1..], v)
  }

  function WithChild(doc: Json, token: Token, child: Json): Json
    requires Child(doc, token).Ok?
  {
    match doc
    case Obj(members) => Obj(members[token.key := child])
    case Arr(items) => Arr(items[token.index := child])
  }

  lemma ReplacedByChild(doc: Json, tokens: seq<Token>, v: Json)
    requires tokens != []
    ensures Replaced(doc, tokens, v) == match NewChild(doc, tokens, v)
                                        case None => None
                                        case Some(child) => Some(WithChild(doc, tokens[0], child))
  {
  }

  predicate SamePlace(doc: Json, a: Token, b: Token)
    requires Child(doc, a).Ok? && Child(doc, b).Ok?
  {
    if doc.Obj? then a.key == b.key else a.index == b.index
  }

  lemma NewChildThere(doc: Json, token: Token, child: Json, other: Token)
    requires Child(doc, token).Ok? && Child(doc, other).Ok?
    ensures Child(WithChild(doc, token, child), other) ==
            if SamePlace(doc, token, other) then Ok(child) else Child(doc, other)
  {
  }

  lemma NewChildrenCommute(doc: Json, p: Token, a: Json, q: Token, b: Json)
    requires Child(doc, p).Ok? && Child(doc, q).Ok?
    requires SamePlace(doc, p, q) ==> a == b
    ensures Child(WithChild(doc, p, a), q).Ok? && Child(WithChild(doc, q, b), p).Ok?
    ensures WithChild(WithChild(doc, p, a), q, b) == WithChild(WithChild(doc, q, b), p, a)
  {
    match doc
    case Obj(members) =>
      assert members[p.key := a][q.key := b] == members[q.key := b][p.key := a];
    case Arr(items) =>
      assert items[p.index := a][q.index := b] == items[q.index := b][p.index := a];
  }

  lemma NewChildWins(doc: Json, p: Token, a: Json, q: Token, b: Json)
    requires Child(doc, p).Ok? && Child(doc, q).Ok? && SamePlace(doc, p, q)
    ensures Child(WithChild(doc, p, a), q).Ok? && WithChild(WithChild(doc, p, a), q, b) == WithChild(doc, p, b)
  {
    match doc
    case Obj(members) =>
      assert members[p.key := a][q.key := b] == members[p.key := b];
    case Arr(items) =>
      assert items[p.index := a][q.index := b] == items[p.index := b];
  }

  /** Replacements at locations that part from each other can be done in either order. */
  lemma {:induction false} ReplacesCommute(doc: Json, p: seq<Token>, v: Json, q: seq<Token>, w: Json)
    requires Apart(doc, p, q)
    requires Replaced(doc, p, v).Some? && Replaced(doc, q, w).Some?
    ensures Replaced(Replaced(doc, p, v).value, q, w).Some?
    ensures Replaced(Replaced(doc, p, v).value, q, w) == Replaced(Replaced(doc, q, w).value, p, v)
    decreases |p|
  {
    ReplacedByChild(doc, p, v);
    ReplacedByChild(doc, q, w);
    var a, b := NewChild(doc, p, v).value, NewChild(doc, q, w).value;
    var first, second := WithChild(doc, p[0], a), WithChild(doc, q[0], b);
    NewChildThere(doc, p[0], a, q[0]);
    NewChildThere(doc, q[0], b, p[0]);
    ReplacedByChild(first, q, w);
    ReplacedByChild(second, p, v);
    if SamePlace(doc, p[0], q[0]) {
      var child := Child(doc, p[0]).value;
      ReplacesCommute(child, p[1..], v, q[1..], w);
      var both := Replaced(a, q[1..], w).value;
      NewChildWins(doc, p[0], a, q[0], both);
      NewChildWins(doc, q[0], b, p[0], both);
      NewChildWins(doc, p[0], both, q[0], both);
      NewChildrenCommute(doc, p[0], both, q[0], both);
    } else {
      NewChildrenCommute(doc, p[0], a, q[0], b);
    }
  }

  // ---------------------------------------------------------------------
  // Writes as replacements of the parent
  // ---------------------------------------------------------------------

  lemma {:induction false} ApartStays(doc: Json, p: seq<Token>, q: seq<Token>)
    requires Apart(doc, p, q)
    ensures Moved(doc, p, q, Replace, false) == Some(q)
    decreases |p|
  {
    match doc
    case Obj(members) =>
      if p[0].key == q[0].key {
        ApartStays(members[p[0].key], p[1..], q[1..]);
        assert [q[0]] + q[1..] == q;
      }
    case Arr(items) =>
      if p[0].index == q[0].index {
        ApartStays(items[p[0].index], p[1..], q[1..]);
        assert [q[0]] + q[1..] == q;
      }
    case _ =>
  }

  lemma {:induction false} ResolvedWhereFound(doc: Json, p: seq<Token>)
    requires Lookup(doc, p).Ok?
    ensures Resolved(doc, p, false) == p
    decreases |p|
  {
    if p != [] {
      ResolvedWhereFound(Child(doc, p[0]).value, p[1..]);
    }
  }

  /** The value at a location, and nothing apart from it, is another one. */
  ghost predicate ReplacedAt(doc: Json, p: seq<Token>, v: Json, after: Json) {
    && (forall below :: Found(after, p + below) == Found(v, below))
    && (forall q :: Apart(doc, p, q) ==> Found(after, q) == Found(doc, q))
  }

  /** A replacement needs the location to exist, and replaces just the value there. */
  lemma ReplaceAt(doc: Json, p: seq<Token>, v: Json)
    ensures var r, there := Write(doc, p, Some(v), Replace, false), Lookup(doc, p);
            if there.Ok? then r.Ok? && ReplacedAt(doc, p, v, r.value.root)
            else there.error.tokenIndex < |p| && r == Err(WriteFailure(doc, p, there.error))
  {
    if p == [] {
      assert forall below :: p + below == below;
    } else {
      TargetMustExist(doc, p, v, Replace);
      if Lookup(doc, p).Ok? {
        ResolvedWhereFound(doc, p);
        forall below
          ensures Found(Write(doc, p, Some(v), Replace, false).value.root, p + below) == Found(v, below)
        {
          WriteReadBack(doc, p, Some(v), Replace, false, below);
        }
        forall q | Apart(doc, p, q)
          ensures Found(Write(doc, p, Some(v), Replace, false).value.root, q) == Found(doc, q)
        {
          ApartStays(doc, p, q);
          Frame(doc, p, q, v, Replace, false);
        }
      }
    }
  }

  lemma UpBelow(tokens: seq<Token>)
    requires |tokens| > 1
    ensures var up, down := tokens[..|tokens| - 1], tokens[1..][..|tokens| - 2];
            up[0] == tokens[0] && up[1..] == down && tokens[|tokens| - 1] == tokens[1..][|tokens| - 2]
  {
  }

  lemma {:induction false} ReplaceTakesNothing(doc: Json, tokens: seq<Token>, v: Json)
    requires tokens != [] && Update(doc, tokens, v, Replace, false).Ok?
    ensures Update(doc, tokens, v, Replace, false).value.removed == None
    decreases |tokens|
  {
    if |tokens| > 1 {
      ReplaceTakesNothing(Descend(doc, tokens[0], false).value, tokens[1..], v);
    }
  }

  lemma LeafReplaceIsPut(c: Json, token: Token, v: Json)
    requires Child(c, token).Ok? && Descend(c, token, false).Ok?
    ensures WriteLeaf(c, token, v, Replace) == Ok(Effect(Put(c, token, false, v), None))
  {
  }

  lemma WriteBelow(doc: Json, p: seq<Token>, child: Json, leaf: Result<Effect, EvalError>)
    requires p != [] && Child(doc, p[0]) == Ok(child) && Descend(doc, p[0], false) == Ok(child)
    requires Lookup(doc, p).Ok? && leaf.Ok?
    ensures var v := Some(leaf.value.root);
            && Write(child, p[1..], v, Replace, false).Ok?
            && Write(doc, p, v, Replace, false) ==
               Ok(Effect(Put(doc, p[0], false, Write(child, p[1..], v, Replace, false).value.root), None))
  {
    ReplaceAt(child, p[1..], leaf.value.root);
    if |p| == 1 {
      assert p == [p[0]] && p[1..] == [];
      LeafReplaceIsPut(doc, p[0], leaf.value.root);
    } else {
      ReplaceTakesNothing(child, p[1..], leaf.value.root);
    }
  }

  /** The parent, replaced by what a write at its last token makes of it. */
  function ParentReplaced(doc: Json, up: seq<Token>, leaf: Result<Effect, EvalError>): Result<Effect, Failure> {
    if leaf.Err? then Err(Failure(leaf.error, |up|))
    else
      var r := Write(doc, up, Some(leaf.value.root), Replace, false);
      if r.Ok? then Ok(Effect(r.value.root, leaf.value.removed)) else r
  }

  /** A write is one at the last token, in the parent, which it replaces. */
  lemma {:induction false} UpdateAtParent(doc: Json, tokens: seq<Token>, v: Json, op: WriteOp)
    requires tokens != [] && Lookup(doc, tokens[..|tokens| - 1]).Ok?
    ensures var last := |tokens| - 1;
            Update(doc, tokens, v, op, false) ==
            ParentReplaced(doc, tokens[..last], WriteLeaf(Lookup(doc, tokens[..last]).value, tokens[last], v, op))
    decreases |tokens|
  {
    var last := |tokens| - 1;
    var leaf := WriteLeaf(Lookup(doc, tokens[..last]).value, tokens[last], v, op);
    if last == 0 {
      assert tokens[..0] == [];
    } else {
      var child := Child(doc, tokens[0]).value;
      UpBelow(tokens);
      LookupDeeper(doc, tokens[..last], child);
      DescendIsChild(doc, tokens[0]);
      UpdateAtParent(child, tokens[1..], v, op);
      if leaf.Ok? {
        WriteBelow(doc, tokens[..last], child, leaf);
      }
    }
  }
}
