/** Compiling a patch document (section 3 of RFC 6902) and writing it back. */
module PatchFormat {
  import opened JsonValue
  import opened PointerEvaluation
  import opened PointerWrite
  import opened JsonPatch
  import PointerCodec
  import PointerParsing

  datatype PatchError =
    | InvalidFromPointer
    | InvalidOperationName
    | InvalidPatchDocument
    | InvalidTargetPointer
    | MissingFrom
    | MissingOp
    | MissingPath
    | MissingValue

  datatype ParseFailure = ParseFailure(error: PatchError, opIndex: nat)

  // Member and operation names, as code units.
  const OP: Text := [0x6F, 0x70]
  const PATH: Text := [0x70, 0x61, 0x74, 0x68]
  const FROM: Text := [0x66, 0x72, 0x6F, 0x6D]
  const VALUE: Text := [0x76, 0x61, 0x6C, 0x75, 0x65]

  const OP_NAMES: seq<(Text, OpKind)> := [
    ([0x61, 0x64, 0x64], AddOp),
    ([0x63, 0x6F, 0x70, 0x79], CopyOp),
    ([0x6D, 0x6F, 0x76, 0x65], MoveOp),
    ([0x72, 0x65, 0x6D, 0x6F, 0x76, 0x65], RemoveOp),
    ([0x72, 0x65, 0x70, 0x6C, 0x61, 0x63, 0x65], ReplaceOp),
    ([0x74, 0x65, 0x73, 0x74], TestOp)
  ]

  function KindOf(name: Text): Option<OpKind> {
    if name == OP_NAMES[0].0 then Some(AddOp)
    else if name == OP_NAMES[1].0 then Some(CopyOp)
    else if name == OP_NAMES[2].0 then Some(MoveOp)
    else if name == OP_NAMES[3].0 then Some(RemoveOp)
    else if name == OP_NAMES[4].0 then Some(ReplaceOp)
    else if name == OP_NAMES[5].0 then Some(TestOp)
    else None
  }

  method KindFromName(name: Text) returns (kind: Option<OpKind>)
    ensures kind == KindOf(name)
  {
    var i := 0;
    while i < |OP_NAMES|
      invariant 0 <= i <= |OP_NAMES|
      invariant forall k :: 0 <= k < i ==> OP_NAMES[k].0 != name
    {
      if name == OP_NAMES[i].0 {
        return Some(OP_NAMES[i].1);
      }
      i := i + 1;
    }
    return None;
  }

  function NameOf(kind: OpKind): Text {
    match kind
    case AddOp => OP_NAMES[0].0
    case CopyOp => OP_NAMES[1].0
    case MoveOp => OP_NAMES[2].0
    case RemoveOp => OP_NAMES[3].0
    case ReplaceOp => OP_NAMES[4].0
    case TestOp => OP_NAMES[5].0
  }

  lemma KindOfName(kind: OpKind)
    ensures KindOf(NameOf(kind)) == Some(kind)
  {
    assert |OP_NAMES[0].0| == 3 && |OP_NAMES[1].0| == 4 && |OP_NAMES[2].0| == 4;
    assert |OP_NAMES[3].0| == 6 && |OP_NAMES[4].0| == 7 && |OP_NAMES[5].0| == 4;
    assert OP_NAMES[1].0[0] == 0x63 && OP_NAMES[2].0[0] == 0x6D && OP_NAMES[5].0[0] == 0x74;
  }

  // ---------------------------------------------------------------------
  // What makes an entry valid
  // ---------------------------------------------------------------------

  predicate HasString(m: map<Text, Json>, name: Text) {
    name in m && m[name].Str?
  }

  predicate HasPointer(m: map<Text, Json>, name: Text) {
    HasString(m, name) && PointerCodec.ValidPointer(m[name].s)
  }

  /** Section 4 of RFC 6902. */
  function Spelling(kind: OpKind): (s: string)
    ensures forall i :: 0 <= i < |s| ==> s[i] as int < 0x80
  {
    match kind
    case AddOp => "add"
    case CopyOp => "copy"
    case MoveOp => "move"
    case RemoveOp => "remove"
    case ReplaceOp => "replace"
    case TestOp => "test"
  }

  lemma NamesAreSpelled(kind: OpKind)
    ensures OP == Ascii("op") && PATH == Ascii("path") && FROM == Ascii("from") && VALUE == Ascii("value")
    ensures NameOf(kind) == Ascii(Spelling(kind))
  {
  }

  /** The "op" member is the name of this kind of operation. */
  predicate Names(m: map<Text, Json>, kind: OpKind) {
    HasString(m, Ascii("op")) && m[Ascii("op")].s == Ascii(Spelling(kind))
  }

  /** An object with the members that the operation it names needs (section 4 of RFC 6902). */
  ghost predicate ValidEntry(entry: Json) {
    && entry.Obj?
    && exists kind :: Names(entry.members, kind) && Complete(entry.members, kind)
  }

  predicate Complete(m: map<Text, Json>, kind: OpKind) {
    && HasPointer(m, Ascii("path"))
    && (kind.MoveOp? || kind.CopyOp? ==> HasPointer(m, Ascii("from")))
    && (kind.AddOp? || kind.ReplaceOp? || kind.TestOp? ==> Ascii("value") in m)
  }

  /** The operation says what the entry says. */
  predicate Denotes(m: map<Text, Json>, op: Op) {
    && Names(m, op.kind) && Complete(m, op.kind)
    && op.path == PointerCodec.ClassifyAll(PointerCodec.Keys(m[Ascii("path")].s))
    && (if op.kind.MoveOp? || op.kind.CopyOp? then
          op.from == Some(PointerCodec.ClassifyAll(PointerCodec.Keys(m[Ascii("from")].s)))
        else op.from == None)
    && (if op.kind.AddOp? || op.kind.ReplaceOp? || op.kind.TestOp? then op.value == m[Ascii("value")]
        else op.value == Null)
  }

  /** What is missing or invalid, where all that is looked at before is as it should be. */
  ghost predicate Faulty(entry: Json, error: PatchError) {
    match error
    case InvalidPatchDocument => !entry.Obj?
    case MissingOp => entry.Obj? && !HasString(entry.members, Ascii("op"))
    case InvalidOperationName =>
      entry.Obj? && HasString(entry.members, Ascii("op")) && forall kind :: !Names(entry.members, kind)
    case MissingPath =>
      entry.Obj? && (exists kind :: Names(entry.members, kind)) && !HasString(entry.members, Ascii("path"))
    case InvalidTargetPointer =>
      && entry.Obj? && (exists kind :: Names(entry.members, kind))
      && HasString(entry.members, Ascii("path")) && !HasPointer(entry.members, Ascii("path"))
    case MissingFrom =>
      && entry.Obj? && (Names(entry.members, MoveOp) || Names(entry.members, CopyOp))
      && HasPointer(entry.members, Ascii("path")) && !HasString(entry.members, Ascii("from"))
    case InvalidFromPointer =>
      && entry.Obj? && (Names(entry.members, MoveOp) || Names(entry.members, CopyOp))
      && HasPointer(entry.members, Ascii("path"))
      && HasString(entry.members, Ascii("from")) && !HasPointer(entry.members, Ascii("from"))
    case MissingValue =>
      && entry.Obj?
      && (Names(entry.members, AddOp) || Names(entry.members, ReplaceOp) || Names(entry.members, TestOp))
      && HasPointer(entry.members, Ascii("path")) && Ascii("value") !in entry.members
  }

  // ---------------------------------------------------------------------
  // One entry
  // ---------------------------------------------------------------------

  predicate NeedsFrom(kind: OpKind) {
    kind.MoveOp? || kind.CopyOp?
  }

  predicate NeedsValue(kind: OpKind) {
    kind.AddOp? || kind.ReplaceOp? || kind.TestOp?
  }

  function StringMember(entry: map<Text, Json>, name: Text): Option<Text> {
    if name in entry && entry[name].Str? then Some(entry[name].s) else None
  }

  function ParsePointerMember(entry: map<Text, Json>, name: Text, missing: PatchError, invalid: PatchError)
    : Result<seq<Token>, PatchError>
  {
    match StringMember(entry, name)
    case None => Err(missing)
    case Some(text) =>
      match PointerCodec.Parse(text)
      case Err(_) => Err(invalid)
      case Ok(tokens) => Ok(tokens)
  }

  function ParseFrom(entry: map<Text, Json>, kind: OpKind): Result<Option<seq<Token>>, PatchError> {
    if !NeedsFrom(kind) then Ok(None)
    else
      match ParsePointerMember(entry, FROM, MissingFrom, InvalidFromPointer)
      case Err(e) => Err(e)
      case Ok(tokens) => Ok(Some(tokens))
  }

  function ParseValue(entry: map<Text, Json>, kind: OpKind): Result<Json, PatchError> {
    if !NeedsValue(kind) then Ok(Null)
    else if VALUE in entry then Ok(entry[VALUE])
    else Err(MissingValue)
  }

  /** The checks of one operation object, in the order that decides which error is reported. */
  function ParseEntry(entry: Json): Result<Op, PatchError> {
    if !entry.Obj? then Err(InvalidPatchDocument)
    else
      match StringMember(entry.members, OP)
      case None => Err(MissingOp)
      case Some(name) =>
        match KindOf(name)
        case None => Err(InvalidOperationName)
        case Some(kind) =>
          match ParsePointerMember(entry.members, PATH, MissingPath, InvalidTargetPointer)
          case Err(e) => Err(e)
          case Ok(path) =>
            match ParseFrom(entry.members, kind)
            case Err(e) => Err(e)
            case Ok(from) =>
              match ParseValue(entry.members, kind)
              case Err(e) => Err(e)
              case Ok(value) => Ok(Op(kind, path, from, value))
  }

  /** The kind that the "op" member names. */
  function NamedKind(m: map<Text, Json>): Option<OpKind> {
    if HasString(m, OP) then KindOf(m[OP].s) else None
  }

  lemma NamesIsKind(m: map<Text, Json>, kind: OpKind)
    ensures Names(m, kind) <==> NamedKind(m) == Some(kind)
  {
    NamesAreSpelled(kind);
    KindOfName(kind);
  }

  lemma SomeKindIsNamed(m: map<Text, Json>)
    ensures (exists kind :: Names(m, kind)) <==> NamedKind(m).Some?
    ensures forall kind :: Names(m, kind) ==> NamedKind(m) == Some(kind)
  {
    forall kind
      ensures Names(m, kind) <==> NamedKind(m) == Some(kind)
    {
      NamesIsKind(m, kind);
    }
  }

  /** An entry is compiled, to the operation it denotes, exactly if it is valid. */
  lemma CompiledIfValid(entry: Json)
    ensures ParseEntry(entry).Ok? <==> ValidEntry(entry)
    ensures ParseEntry(entry).Ok? ==> Denotes(entry.members, ParseEntry(entry).value)
  {
    NamesAreSpelled(AddOp);
    if entry.Obj? {
      SomeKindIsNamed(entry.members);
      if NamedKind(entry.members).Some? {
        NamesIsKind(entry.members, NamedKind(entry.members).value);
      }
    }
  }

  lemma NoOperation(entry: Json)
    requires !entry.Obj? || NamedKind(entry.members).None?
    ensures ParseEntry(entry).Err? && forall error :: Faulty(entry, error) <==> ParseEntry(entry) == Err(error)
  {
    NamesAreSpelled(AddOp);
    if entry.Obj? {
      SomeKindIsNamed(entry.members);
    }
  }

  /** The faults of an entry that names an operation. */
  predicate FaultyParts(m: map<Text, Json>, kind: OpKind, error: PatchError) {
    match error
    case MissingPath => !HasString(m, PATH)
    case InvalidTargetPointer => HasString(m, PATH) && !HasPointer(m, PATH)
    case MissingFrom => NeedsFrom(kind) && HasPointer(m, PATH) && !HasString(m, FROM)
    case InvalidFromPointer => NeedsFrom(kind) && HasPointer(m, PATH) && HasString(m, FROM) && !HasPointer(m, FROM)
    case MissingValue => NeedsValue(kind) && HasPointer(m, PATH) && VALUE !in m
    case _ => false
  }

  lemma FaultOfParts(entry: Json, kind: OpKind, error: PatchError)
    requires entry.Obj? && NamedKind(entry.members) == Some(kind)
    ensures Faulty(entry, error) <==> FaultyParts(entry.members, kind, error)
  {
    NamesAreSpelled(kind);
    SomeKindIsNamed(entry.members);
    NamesIsKind(entry.members, kind);
  }

  lemma ErrorOfPath(entry: Json, kind: OpKind, error: PatchError)
    requires entry.Obj? && NamedKind(entry.members) == Some(kind) && !HasPointer(entry.members, PATH)
    ensures FaultyParts(entry.members, kind, error) <==> ParseEntry(entry) == Err(error)
  {
  }

  lemma ErrorOfRest(entry: Json, kind: OpKind, error: PatchError)
    requires entry.Obj? && NamedKind(entry.members) == Some(kind) && HasPointer(entry.members, PATH)
    ensures FaultyParts(entry.members, kind, error) <==> ParseEntry(entry) == Err(error)
  {
    if NeedsFrom(kind) {
      assert !NeedsValue(kind);
    }
  }

  /** Every error names its fault, and every fault gives its error. */
  lemma ErrorIsFault(entry: Json, error: PatchError)
    ensures Faulty(entry, error) <==> ParseEntry(entry) == Err(error)
  {
    if !entry.Obj? || NamedKind(entry.members).None? {
      NoOperation(entry);
    } else {
      FaultOfParts(entry, NamedKind(entry.members).value, error);
      if HasPointer(entry.members, PATH) {
        ErrorOfRest(entry, NamedKind(entry.members).value, error);
      } else {
        ErrorOfPath(entry, NamedKind(entry.members).value, error);
      }
    }
  }

  method CompilePointerMember(entry: map<Text, Json>, name: Text, missing: PatchError, invalid: PatchError)
    returns (r: Result<seq<Token>, PatchError>)
    ensures r == ParsePointerMember(entry, name, missing, invalid)
  {
    if name !in entry || !entry[name].Str? {
      return Err(missing);
    }
    var tokens := PointerParsing.ParsePointer(entry[name].s);
    if tokens.Err? {
      return Err(invalid);
    }
    return Ok(tokens.value);
  }

  method CompileEntry(entry: Json) returns (r: Result<Op, PatchError>)
    ensures r == ParseEntry(entry)
  {
    if !entry.Obj? {
      return Err(InvalidPatchDocument);
    }
    var opObj := entry.members;
    if OP !in opObj || !opObj[OP].Str? {
      return Err(MissingOp);
    }
    var kindLookup := KindFromName(opObj[OP].s);
    if kindLookup.None? {
      return Err(InvalidOperationName);
    }
    var kind := kindLookup.value;
    var path := CompilePointerMember(opObj, PATH, MissingPath, InvalidTargetPointer);
    if path.Err? {
      return Err(path.error);
    }
    var from: Option<seq<Token>> := None;
    if NeedsFrom(kind) {
      var fromPtr := CompilePointerMember(opObj, FROM, MissingFrom, InvalidFromPointer);
      if fromPtr.Err? {
        return Err(fromPtr.error);
      }
      from := Some(fromPtr.value);
    }
    var value := Null;
    if NeedsValue(kind) {
      if VALUE !in opObj {
        return Err(MissingValue);
      }
      value := opObj[VALUE];
    }
    return Ok(Op(kind, path.value, from, value));
  }

  // ---------------------------------------------------------------------
  // Whole patches
  // ---------------------------------------------------------------------

  /** Compiles the entries in order, from the `i`-th on, and stops at the first that does not compile. */
  function CompileFrom<T>(entries: seq<T>, compile: T -> Result<Op, PatchError>, i: nat): Result<seq<Op>, ParseFailure>
    requires i <= |entries|
    decreases |entries| - i
  {
    if i == |entries| then Ok([])
    else
      match compile(entries[i])
      case Err(e) => Err(ParseFailure(e, ClampTokenIndex(i)))
      case Ok(op) =>
        match CompileFrom(entries, compile, i + 1)
        case Err(f) => Err(f)
        case Ok(rest) => Ok([op] + rest)
  }

  function ParseEntries(patch: seq<Json>): Result<seq<Op>, ParseFailure> {
    CompileFrom(patch, ParseEntry, 0)
  }

  /** Entry `n` is the first, from the `i`-th on, that does not compile. */
  ghost predicate FirstInvalid<T>(entries: seq<T>, compile: T -> Result<Op, PatchError>, i: nat, n: nat) {
    && i <= n < |entries| && compile(entries[n]).Err?
    && forall k :: i <= k < n ==> compile(entries[k]).Ok?
  }

  ghost predicate Compiled<T>(entries: seq<T>, compile: T -> Result<Op, PatchError>, i: nat, ops: seq<Op>) {
    i + |ops| == |entries| && forall k :: 0 <= k < |ops| ==> compile(entries[i + k]) == Ok(ops[k])
  }

  lemma {:induction false} CompileOutcome<T>(entries: seq<T>, compile: T -> Result<Op, PatchError>, i: nat)
    returns (n: nat)
    requires i <= |entries|
    ensures match CompileFrom(entries, compile, i)
            case Ok(ops) => Compiled(entries, compile, i, ops)
            case Err(f) => && FirstInvalid(entries, compile, i, n) && f.opIndex == ClampTokenIndex(n)
                           && compile(entries[n]) == Err(f.error)
    decreases |entries| - i
  {
    n := i;
    if i < |entries| && compile(entries[i]).Ok? {
      n := CompileOutcome(entries, compile, i + 1);
      if CompileFrom(entries, compile, i).Ok? {
        var ops := CompileFrom(entries, compile, i).value;
        assert forall k :: 0 < k < |ops| ==> ops[k] == CompileFrom(entries, compile, i + 1).value[k - 1];
      }
    }
  }

  /** Entry `n` is the first that is not valid, and the failure names its fault. */
  ghost predicate FirstFault(patch: seq<Json>, n: nat, f: ParseFailure) {
    && n < |patch| && !ValidEntry(patch[n]) && (forall k :: 0 <= k < n ==> ValidEntry(patch[k]))
    && Faulty(patch[n], f.error) && f.opIndex == if n <= 65535 then n else 65535
  }

  ghost predicate DenotesAll(patch: seq<Json>, ops: seq<Op>) {
    |ops| == |patch| && forall k :: 0 <= k < |ops| ==> ValidEntry(patch[k]) && Denotes(patch[k].members, ops[k])
  }

  /** One operation per entry exactly when every entry is valid; otherwise the first invalid entry and its fault. */
  lemma ParseEntriesOutcome(patch: seq<Json>)
    ensures ParseEntries(patch).Ok? <==> forall k :: 0 <= k < |patch| ==> ValidEntry(patch[k])
    ensures match ParseEntries(patch)
            case Ok(ops) => DenotesAll(patch, ops)
            case Err(f) => exists n: nat :: FirstFault(patch, n, f)
  {
    var n := CompileOutcome(patch, ParseEntry, 0);
    forall k | 0 <= k < |patch|
      ensures ParseEntry(patch[k]).Ok? <==> ValidEntry(patch[k])
      ensures ParseEntry(patch[k]).Ok? ==> Denotes(patch[k].members, ParseEntry(patch[k]).value)
    {
      CompiledIfValid(patch[k]);
    }
    match ParseEntries(patch)
    case Ok(ops) =>
      forall k | 0 <= k < |ops|
        ensures ValidEntry(patch[k]) && Denotes(patch[k].members, ops[k])
      {
        assert ParseEntry(patch[0 + k]) == Ok(ops[k]);
      }
    case Err(f) =>
      ErrorIsFault(patch[n], f.error);
      assert FirstFault(patch, n, f);
  }

  lemma ParsedPatchIsValid(patch: seq<Json>)
    requires ParseEntries(patch).Ok?
    ensures ValidOps(ParseEntries(patch).value)
    ensures forall op :: op in ParseEntries(patch).value ==> WellFormedOp(op)
  {
    var n := CompileOutcome(patch, ParseEntry, 0);
    var ops := ParseEntries(patch).value;
    forall k | 0 <= k < |ops|
      ensures WellFormedOp(ops[k]) && ops[k].Valid()
    {
      assert ParseEntry(patch[0 + k]) == Ok(ops[k]);
      ParsedIsWellFormed(patch[0 + k]);
    }
  }

  method ParsePatch(patch: seq<Json>) returns (r: Result<seq<Op>, ParseFailure>)
    ensures r == ParseEntries(patch)
    ensures r.Ok? <==> forall k :: 0 <= k < |patch| ==> ValidEntry(patch[k])
    ensures r.Ok? ==> ValidOps(r.value) && DenotesAll(patch, r.value)
    ensures r.Err? ==> exists n: nat :: FirstFault(patch, n, r.error)
  {
    r := CompileEntries(patch);
    ParseEntriesOutcome(patch);
    if r.Ok? {
      ParsedPatchIsValid(patch);
    }
  }

  method CompileEntries(patch: seq<Json>) returns (r: Result<seq<Op>, ParseFailure>)
    ensures r == ParseEntries(patch)
  {
    var ops: seq<Op> := [];
    var i := 0;
    AfterNothing(ParseEntries(patch));
    while i < |patch|
      invariant 0 <= i <= |patch|
      invariant ParseEntries(patch) == After(ops, CompileFrom(patch, ParseEntry, i))
    {
      var op := CompileEntry(patch[i]);
      CompileStep(patch, ParseEntry, i, ops);
      if op.Err? {
        return Err(ParseFailure(op.error, ClampTokenIndex(i)));
      }
      ops := ops + [op.value];
      i := i + 1;
    }
    AfterAll(ops);
    r := Ok(ops);
  }

  function After(ops: seq<Op>, rest: Result<seq<Op>, ParseFailure>): Result<seq<Op>, ParseFailure> {
    match rest
    case Ok(more) => Ok(ops + more)
    case Err(f) => Err(f)
  }

  lemma AfterNothing(rest: Result<seq<Op>, ParseFailure>)
    ensures After([], rest) == rest
  {
    if rest.Ok? {
      assert [] + rest.value == rest.value;
    }
  }

  lemma AfterAll(ops: seq<Op>)
    ensures After(ops, Ok([])) == Ok(ops)
  {
    assert ops + [] == ops;
  }

  lemma CompileStep<T>(entries: seq<T>, compile: T -> Result<Op, PatchError>, i: nat, ops: seq<Op>)
    requires i < |entries|
    ensures After(ops, CompileFrom(entries, compile, i)) ==
            match compile(entries[i])
            case Err(e) => Err(ParseFailure(e, ClampTokenIndex(i)))
            case Ok(op) => After(ops + [op], CompileFrom(entries, compile, i + 1))
  {
    if compile(entries[i]).Ok? && CompileFrom(entries, compile, i + 1).Ok? {
      var rest := CompileFrom(entries, compile, i + 1).value;
      assert ops + ([compile(entries[i]).value] + rest) == (ops + [compile(entries[i]).value]) + rest;
    }
  }

  function EntryOf(op: Op): Json {
    var entry := map[OP := Str(NameOf(op.kind)), PATH := Str(PointerCodec.Print(op.path))];
    var withFrom := if op.from.Some? then entry[FROM := Str(PointerCodec.Print(op.from.value))] else entry;
    Obj(if NeedsValue(op.kind) then withFrom[VALUE := op.value] else withFrom)
  }

  method ToJson(ops: seq<Op>) returns (out: seq<Json>)
    ensures out == Wire(ops)
  {
    out := [];
    var i := 0;
    while i < |ops|
      invariant 0 <= i <= |ops| && |out| == i
      invariant forall k :: 0 <= k < i ==> out[k] == EntryOf(ops[k])
    {
      var op := ops[i];
      var entry: map<Text, Json> := map[];
      entry := entry[OP := Str(NameOf(op.kind))];
      var path := PointerParsing.ToString(op.path);
      entry := entry[PATH := Str(path)];
      if op.from.Some? {
        var from := PointerParsing.ToString(op.from.value);
        entry := entry[FROM := Str(from)];
      }
      if op.kind.AddOp? || op.kind.ReplaceOp? || op.kind.TestOp? {
        entry := entry[VALUE := op.value];
      }
      assert Obj(entry) == EntryOf(op);
      out := out + [Obj(entry)];
      i := i + 1;
    }
  }

  /** What every parsed operation satisfies: `from` and `value` are present exactly where they belong. */
  predicate WellFormedOp(op: Op) {
    (op.from.Some? <==> NeedsFrom(op.kind)) && (!NeedsValue(op.kind) ==> op.value == Null)
  }

  predicate CanonicalOp(op: Op) {
    PointerCodec.Canonical(op.path) && (op.from.Some? ==> PointerCodec.Canonical(op.from.value))
  }

  lemma ParsedIsWellFormed(entry: Json)
    requires ParseEntry(entry).Ok?
    ensures WellFormedOp(ParseEntry(entry).value)
  {
  }

  lemma DistinctNames()
    ensures OP != PATH && OP != FROM && OP != VALUE && PATH != FROM && PATH != VALUE && FROM != VALUE
  {
    assert |OP| == 2 && |PATH| == 4 && |FROM| == 4 && |VALUE| == 5;
    assert PATH[0] != FROM[0];
  }

  lemma EntryMembers(op: Op)
    requires WellFormedOp(op)
    ensures var entry := EntryOf(op).members;
            && StringMember(entry, OP) == Some(NameOf(op.kind))
            && StringMember(entry, PATH) == Some(PointerCodec.Print(op.path))
            && (NeedsFrom(op.kind) ==> StringMember(entry, FROM) == Some(PointerCodec.Print(op.from.value)))
  {
    DistinctNames();
  }

  /** The members written: the name and the path, and those that the kind of operation needs. */
  lemma EntryIsWritten(op: Op)
    requires WellFormedOp(op)
    ensures var from, value := op.kind.MoveOp? || op.kind.CopyOp?,
                               op.kind.AddOp? || op.kind.ReplaceOp? || op.kind.TestOp?;
            var entry := EntryOf(op);
            && entry.Obj?
            && entry.members.Keys == {Ascii("op"), Ascii("path")} + (if from then {Ascii("from")} else {})
                                     + (if value then {Ascii("value")} else {})
            && entry.members[Ascii("op")] == Str(Ascii(Spelling(op.kind)))
            && entry.members[Ascii("path")] == Str(PointerCodec.Print(op.path))
            && (from ==> entry.members[Ascii("from")] == Str(PointerCodec.Print(op.from.value)))
            && (value ==> entry.members[Ascii("value")] == op.value)
  {
    DistinctNames();
    NamesAreSpelled(op.kind);
  }

  /** An operation survives being written and compiled again exactly when its pointers are canonical. */
  lemma EntryRoundTrip(op: Op)
    requires WellFormedOp(op)
    ensures ParseEntry(EntryOf(op)).Ok?
    ensures ParseEntry(EntryOf(op)) == Ok(op) <==> CanonicalOp(op)
  {
    DistinctNames();
    KindOfName(op.kind);
    PointerCodec.ParseOfPrint(op.path);
    EntryMembers(op);
    if NeedsFrom(op.kind) {
      PointerCodec.ParseOfPrint(op.from.value);
    }
  }

  function Wire(ops: seq<Op>): (r: seq<Json>)
    ensures |r| == |ops| && forall i :: 0 <= i < |ops| ==> r[i] == EntryOf(ops[i])
  {
    seq(|ops|, i requires 0 <= i < |ops| => EntryOf(ops[i]))
  }

  /** A compiled patch written with toJson compiles to itself exactly when all its pointers are canonical. */
  lemma PatchRoundTrip(ops: seq<Op>)
    requires forall op :: op in ops ==> WellFormedOp(op)
    ensures ParseEntries(Wire(ops)).Ok?
    ensures ParseEntries(Wire(ops)) == Ok(ops) <==> forall op :: op in ops ==> CanonicalOp(op)
  {
    var wire := Wire(ops);
    forall i | 0 <= i < |ops|
      ensures ParseEntry(wire[i]).Ok?
      ensures ParseEntry(wire[i]) == Ok(ops[i]) <==> CanonicalOp(ops[i])
    {
      EntryRoundTrip(ops[i]);
    }
    var n := CompileOutcome(wire, ParseEntry, 0);
    var back := ParseEntries(wire).value;
    assert forall i :: 0 <= i < |ops| ==> ParseEntry(wire[0 + i]) == Ok(back[i]);
    if forall op :: op in ops ==> CanonicalOp(op) {
      assert back == ops;
    }
  }
}
