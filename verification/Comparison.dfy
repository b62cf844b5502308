/** Comparisons in filter expressions (sections 2.3.5.1 and 2.3.5.2.2 of RFC 9535). */
module Comparison {
  import opened JsonValue
  import JsonEquality
  import StringOrder
  import Utf16
  import opened TopLevelSplit
  import opened NestedText

  datatype Operator = Equal | Greater | GreaterEqual | Less | LessEqual | NotEqual

  // ---------------------------------------------------------------------
  // Comparing values; None is Nothing
  // ---------------------------------------------------------------------

  /** Qt's equality of two values that are not both numbers. */
  type Equality = (Json, Json) -> bool

  /** What is needed of it: an equivalence that separates kinds and compares strings by their units. */
  ghost predicate IsEquality(same: Equality) {
    && (forall a :: same(a, a))
    && (forall a, b :: same(a, b) ==> same(b, a))
    && (forall a, b, c :: same(a, b) && same(b, c) ==> same(a, c))
    && (forall a, b :: same(a, b) ==> a.Num? == b.Num? && (a.Str? || b.Str? ==> a == b))
  }

  predicate EqualValues(lhs: Option<Json>, rhs: Option<Json>, same: Equality) {
    if lhs.None? || rhs.None? then lhs.None? && rhs.None?
    else if lhs.value.Num? && rhs.value.Num? then lhs.value.n.ToDouble() == rhs.value.n.ToDouble()
    else same(lhs.value, rhs.value)
  }

  predicate LessValues(lhs: Option<Json>, rhs: Option<Json>) {
    if lhs.None? || rhs.None? then false
    else if lhs.value.Num? && rhs.value.Num? then lhs.value.n.ToDouble() < rhs.value.n.ToDouble()
    else lhs.value.Str? && rhs.value.Str? && StringOrder.Less(lhs.value.s, rhs.value.s)
  }

  predicate Compare(lhs: Option<Json>, op: Operator, rhs: Option<Json>, same: Equality) {
    match op
    case Equal => EqualValues(lhs, rhs, same)
    case NotEqual => !EqualValues(lhs, rhs, same)
    case Less => LessValues(lhs, rhs)
    case LessEqual => LessValues(lhs, rhs) || EqualValues(lhs, rhs, same)
    case Greater => LessValues(rhs, lhs)
    case GreaterEqual => LessValues(rhs, lhs) || EqualValues(lhs, rhs, same)
  }

  /** Only two numbers or two strings are ordered. */
  predicate Ordered(a: Option<Json>, b: Option<Json>) {
    a.Some? && b.Some? && ((a.value.Num? && b.value.Num?) || (a.value.Str? && b.value.Str?))
  }

  /** Deep equality (section 2.3.5.2.2 of RFC 9535). */
  function Deep(): Equality {
    (a, b) => JsonEquality.Normalised(a) == JsonEquality.Normalised(b)
  }

  /** Deep equality is such an equality, and with it == is deep equality on values and sets Nothing apart. */
  lemma EqualIsDeepEquality(a: Option<Json>, b: Option<Json>)
    ensures IsEquality(Deep())
    ensures Compare(a, Equal, b, Deep()) <==>
            a.Some? == b.Some? && (a.Some? ==> JsonEquality.DeepEqual(a.value, b.value))
    ensures Compare(a, NotEqual, b, Deep()) <==>
            a.Some? != b.Some? || (a.Some? && !JsonEquality.DeepEqual(a.value, b.value))
  {
    if a.Some? && b.Some? {
      JsonEquality.DeepEqualIsStructural(a.value, b.value);
    }
  }

  /** Numbers compare by value, in either storage. */
  lemma NumbersByValue(m: Number, n: Number, same: Equality)
    ensures var a, b := Some(Num(m)), Some(Num(n));
            && (Compare(a, Less, b, same) <==> m.ToDouble() < n.ToDouble())
            && (Compare(a, Greater, b, same) <==> m.ToDouble() > n.ToDouble())
            && (Compare(a, Equal, b, same) <==> m.ToDouble() == n.ToDouble())
    ensures forall i: int :: Integer(i).ToDouble() == i as real
    ensures forall d: real :: Double(d).ToDouble() == d
  {
  }

  /** Well-formed strings compare by their Unicode scalar values. */
  lemma StringsByScalarValue(s: Text, t: Text, same: Equality)
    requires Utf16.WellFormed(s) && Utf16.WellFormed(t)
    ensures var a, b, x, y := Some(Str(s)), Some(Str(t)), Utf16.Decode(s), Utf16.Decode(t);
            && (Compare(a, Less, b, same) <==> StringOrder.LexLess(x, y))
            && (Compare(a, Greater, b, same) <==> StringOrder.LexLess(y, x))
  {
    StringOrder.LessIsScalarOrder(s, t);
    StringOrder.LessIsScalarOrder(t, s);
  }

  /** Of ordered values exactly one of <, == and > holds; of others < and > never, so <= and >= mean ==. */
  lemma Trichotomy(a: Option<Json>, b: Option<Json>, same: Equality)
    requires IsEquality(same)
    ensures var less, equal := Compare(a, Less, b, same), Compare(a, Equal, b, same);
            var greater := Compare(a, Greater, b, same);
            && !(less && equal) && !(less && greater) && !(equal && greater)
            && (Ordered(a, b) ==> less || equal || greater)
            && (!Ordered(a, b) ==> !less && !greater)
            && (Compare(a, LessEqual, b, same) <==> less || equal)
            && (Compare(a, GreaterEqual, b, same) <==> greater || equal)
            && (Ordered(a, b) ==> (Compare(a, LessEqual, b, same) <==> !greater))
  {
    if Ordered(a, b) && a.value.Str? {
      StringOrder.LessIsStrictTotalOrder(a.value.s, b.value.s, a.value.s);
    }
  }

  /** <= is an order on all values, Nothing included: reflexive, antisymmetric up to ==, transitive. */
  lemma LessEqualIsOrder(a: Option<Json>, b: Option<Json>, c: Option<Json>, same: Equality)
    requires IsEquality(same)
    ensures Compare(a, LessEqual, a, same)
    ensures Compare(a, LessEqual, b, same) && Compare(b, LessEqual, a, same) ==> Compare(a, Equal, b, same)
    ensures Compare(a, LessEqual, b, same) && Compare(b, LessEqual, c, same) ==> Compare(a, LessEqual, c, same)
    ensures Compare(a, LessEqual, b, same) <==> Compare(b, GreaterEqual, a, same)
  {
    Trichotomy(a, b, same);
    if Ordered(a, b) && Ordered(b, c) && a.value.Str? {
      StringOrder.LessIsStrictTotalOrder(a.value.s, b.value.s, c.value.s);
    }
  }

  // ---------------------------------------------------------------------
  // Finding the operator
  // ---------------------------------------------------------------------

  const EQUALS: CodeUnit := 0x3D
  const BANG: CodeUnit := 0x21
  const LESS_SIGN: CodeUnit := 0x3C
  const GREATER_SIGN: CodeUnit := 0x3E

  predicate Opens(c: CodeUnit) {
    c == PAREN_OPEN || c == BRACKET_OPEN
  }

  predicate Closes(c: CodeUnit) {
    c == PAREN_CLOSE || c == BRACKET_CLOSE
  }

  /** The operator that starts with a unit, given whether '=' follows it. */
  function OperatorAt(c: CodeUnit, nextIsEq: bool): Option<Operator> {
    if c == EQUALS && nextIsEq then Some(Equal)
    else if c == BANG && nextIsEq then Some(NotEqual)
    else if c == LESS_SIGN then Some(if nextIsEq then LessEqual else Less)
    else if c == GREATER_SIGN then Some(if nextIsEq then GreaterEqual else Greater)
    else None
  }

  function OperatorLength(op: Operator): nat {
    if op.Less? || op.Greater? then 1 else 2
  }

  predicate NextIsEq(s: Text, i: nat) {
    i + 1 < |s| && s[i + 1] == EQUALS
  }

  /** The first operator from position `i` on outside quotes, parentheses and brackets. */
  function FindOperator(s: Text, i: nat, depth: int, quote: Option<CodeUnit>): Option<(nat, Operator)>
    requires i <= |s|
    decreases |s| - i
  {
    if i == |s| then None
    else if quote.Some? then
      if s[i] == BACKSLASH then (if i + 2 > |s| then None else FindOperator(s, i + 2, depth, quote))
      else FindOperator(s, i + 1, depth, if s[i] == quote.value then None else quote)
    else if IsQuote(s[i]) then FindOperator(s, i + 1, depth, Some(s[i]))
    else if Opens(s[i]) then FindOperator(s, i + 1, depth + 1, None)
    else if Closes(s[i]) then FindOperator(s, i + 1, depth - 1, None)
    else if depth == 0 && OperatorAt(s[i], NextIsEq(s, i)).Some? then Some((i, OperatorAt(s[i], NextIsEq(s, i)).value))
    else FindOperator(s, i + 1, depth, None)
  }

  lemma {:induction false} OperatorIsInside(s: Text, i: nat, depth: int, quote: Option<CodeUnit>)
    requires i <= |s| && FindOperator(s, i, depth, quote).Some?
    ensures var (k, op) := FindOperator(s, i, depth, quote).value;
            i <= k && k + OperatorLength(op) <= |s| && OperatorAt(s[k], NextIsEq(s, k)) == Some(op)
    decreases |s| - i
  {
    if quote.Some? {
      if s[i] == BACKSLASH {
        OperatorIsInside(s, i + 2, depth, quote);
      } else {
        OperatorIsInside(s, i + 1, depth, if s[i] == quote.value then None else quote);
      }
    } else if IsQuote(s[i]) {
      OperatorIsInside(s, i + 1, depth, Some(s[i]));
    } else if Opens(s[i]) {
      OperatorIsInside(s, i + 1, depth + 1, None);
    } else if Closes(s[i]) {
      OperatorIsInside(s, i + 1, depth - 1, None);
    } else if depth != 0 || OperatorAt(s[i], NextIsEq(s, i)).None? {
      OperatorIsInside(s, i + 1, depth, None);
    }
  }

  /** The operands, before they are trimmed, and the operator between them. */
  datatype Split = Split(lhs: Text, op: Operator, rhs: Text)

  function SplitAtOperator(s: Text): Option<Split> {
    match FindOperator(s, 0, 0, None)
    case None => None
    case Some((k, op)) =>
      OperatorIsInside(s, 0, 0, None);
      Some(Split(s[..k], op, s[k + OperatorLength(op)..]))
  }

  method SplitTopLevelComparison(expr: Text) returns (r: Option<Split>)
    ensures r == SplitAtOperator(expr)
  {
    var depth := 0;
    var quote: Option<CodeUnit> := None;
    var i := 0;
    while i < |expr|
      invariant 0 <= i
      invariant FindOperator(expr, 0, 0, None) == if i > |expr| then None else FindOperator(expr, i, depth, quote)
    {
      var c := expr[i];
      if quote.Some? {
        if c == BACKSLASH {
          i := i + 1;
        } else if c == quote.value {
          quote := None;
        }
      } else if IsQuote(c) {
        quote := Some(c);
      } else if Opens(c) {
        depth := depth + 1;
      } else if Closes(c) {
        depth := depth - 1;
      } else if depth == 0 {
        var nextIsEq := i + 1 < |expr| && expr[i + 1] == EQUALS;
        var op := OperatorAt(c, nextIsEq);
        if op.Some? {
          var length := if nextIsEq || c == EQUALS || c == BANG then 2 else 1;
          OperatorIsInside(expr, 0, 0, None);
          return Some(Split(expr[..i], op.value, expr[i + length..]));
        }
      }
      i := i + 1;
    }
    return None;
  }

  // ---------------------------------------------------------------------
  // Expressions with quotes and brackets nested in them
  // ---------------------------------------------------------------------

  /** Braces mean nothing to this scanner; texts with groups in braces are left out. */
  predicate NoBraces(piece: Piece) {
    piece.Group? ==> piece.opener != BRACE_OPEN && forall i :: 0 <= i < |piece.inner| ==> NoBraces(piece.inner[i])
  }

  predicate Readable(pieces: seq<Piece>) {
    AllValid(pieces) && forall i :: 0 <= i < |pieces| ==> NoBraces(pieces[i])
  }

  /** The text `t` stands in `s` at position `i`. */
  predicate StandsAt(s: Text, i: nat, t: Text) {
    i + |t| <= |s| && s[i..i + |t|] == t
  }

  lemma StandsInParts(s: Text, i: nat, a: Text, b: Text)
    requires StandsAt(s, i, a + b)
    ensures StandsAt(s, i, a) && StandsAt(s, i + |a|, b)
  {
    var t := s[i..i + |a + b|];
    assert s[i..i + |a|] == t[..|a|] == a;
    assert s[i + |a|..i + |a| + |b|] == t[|a|..] == b;
  }

  lemma {:induction false} OverBody(s: Text, i: nat, quote: CodeUnit, body: seq<QuotedUnit>, depth: int)
    requires IsQuote(quote) && ValidBody(quote, body) && StandsAt(s, i, BodyText(body))
    ensures FindOperator(s, i, depth, Some(quote)) == FindOperator(s, i + |BodyText(body)|, depth, Some(quote))
    decreases body
  {
    if body != [] {
      var first := if body[0].Raw? then [body[0].c] else [BACKSLASH, body[0].c];
      StandsInParts(s, i, first, BodyText(body[1..]));
      assert s[i] == s[i..i + |first|][0];
      OverBody(s, i + |first|, quote, body[1..], depth);
    }
  }

  lemma StandsWrapped(s: Text, i: nat, open: CodeUnit, t: Text, close: CodeUnit)
    requires StandsAt(s, i, [open] + (t + [close]))
    ensures StandsAt(s, i + 1, t) && i + 1 + |t| < |s|
    ensures s[i] == open && s[i + 1 + |t|] == close
  {
    StandsInParts(s, i, [open], t + [close]);
    StandsInParts(s, i + 1, t, [close]);
    var end := i + 1 + |t|;
    assert s[i..i + 1][0] == open;
    assert StandsAt(s, end, [close]) && s[end..end + 1][0] == [close][0];
  }

  lemma OverQuoted(s: Text, i: nat, quote: CodeUnit, body: seq<QuotedUnit>, depth: int)
    requires IsQuote(quote) && ValidBody(quote, body) && StandsAt(s, i, [quote] + (BodyText(body) + [quote]))
    ensures FindOperator(s, i, depth, None) == FindOperator(s, i + |BodyText(body)| + 2, depth, None)
  {
    StandsWrapped(s, i, quote, BodyText(body), quote);
    OverBody(s, i + 1, quote, body, depth);
  }

  /** Below the top level, and in quotes and groups, no operator is found. */
  lemma {:induction false} OverPiece(s: Text, i: nat, piece: Piece, depth: nat)
    requires piece.Valid() && NoBraces(piece) && StandsAt(s, i, piece.Text())
    requires piece.Plain? && depth == 0 ==> OperatorAt(piece.c, NextIsEq(s, i)).None?
    ensures FindOperator(s, i, depth, None) == FindOperator(s, i + |piece.Text()|, depth, None)
    decreases piece, 0
  {
    match piece
    case Plain(c) => assert s[i] == s[i..i + 1][0] == c;
    case Quoted(quote, body) => OverQuoted(s, i, quote, body, depth);
    case Group(opener, inner) =>
      StandsWrapped(s, i, opener, TextOf(inner), Closer(opener));
      OverInner(s, i + 1, inner, depth + 1);
  }

  lemma {:induction false} OverInner(s: Text, i: nat, inner: seq<Piece>, depth: nat)
    requires Readable(inner) && StandsAt(s, i, TextOf(inner)) && depth > 0
    ensures FindOperator(s, i, depth, None) == FindOperator(s, i + |TextOf(inner)|, depth, None)
    decreases inner
  {
    if inner != [] {
      StandsInParts(s, i, inner[0].Text(), TextOf(inner[1..]));
      OverPiece(s, i, inner[0], depth);
      OverInner(s, i + |inner[0].Text()|, inner[1..], depth);
    }
  }

  /** The operator written at the front of the pieces, in plain units. */
  function OperatorHere(pieces: seq<Piece>): Option<Operator>
    requires pieces != []
  {
    if pieces[0].Plain? then OperatorAt(pieces[0].c, |pieces| > 1 && pieces[1] == Plain(EQUALS)) else None
  }

  function FirstOperator(pieces: seq<Piece>): (r: Option<(nat, Operator)>)
    ensures r.Some? ==> r.value.0 + OperatorLength(r.value.1) <= |pieces|
  {
    if pieces == [] then None
    else if OperatorHere(pieces).Some? then Some((0, OperatorHere(pieces).value))
    else
      match FirstOperator(pieces[1..])
      case None => None
      case Some((k, op)) => Some((k + 1, op))
  }

  lemma NextIsPlainEq(s: Text, i: nat, pieces: seq<Piece>)
    requires AllValid(pieces) && pieces != [] && pieces[0].Plain?
    requires StandsAt(s, i, TextOf(pieces)) && i + |TextOf(pieces)| == |s|
    ensures i < |s| && s[i] == pieces[0].c
    ensures NextIsEq(s, i) <==> |pieces| > 1 && pieces[1] == Plain(EQUALS)
  {
    var text := TextOf(pieces);
    assert s[i..i + |text|] == text && text == pieces[0].Text() + TextOf(pieces[1..]);
    assert s[i] == text[0];
    if |pieces| > 1 {
      FirstUnit(pieces[1..], EQUALS);
      assert s[i + 1] == text[1] == TextOf(pieces[1..])[0];
    }
  }

  /** Unless an operator starts here, the scan goes on behind the first piece. */
  lemma OverFirst(s: Text, i: nat, pieces: seq<Piece>)
    requires Readable(pieces) && pieces != [] && OperatorHere(pieces).None?
    requires StandsAt(s, i, TextOf(pieces)) && i + |TextOf(pieces)| == |s|
    ensures var next := i + |pieces[0].Text()|;
            && next <= |s| && StandsAt(s, next, TextOf(pieces[1..])) && next + |TextOf(pieces[1..])| == |s|
            && FindOperator(s, i, 0, None) == FindOperator(s, next, 0, None)
  {
    if pieces[0].Plain? {
      NextIsPlainEq(s, i, pieces);
    }
    StandsInParts(s, i, pieces[0].Text(), TextOf(pieces[1..]));
    OverPiece(s, i, pieces[0], 0);
  }

  lemma {:induction false} FindsNone(s: Text, i: nat, pieces: seq<Piece>)
    requires Readable(pieces) && FirstOperator(pieces).None?
    requires StandsAt(s, i, TextOf(pieces)) && i + |TextOf(pieces)| == |s|
    ensures FindOperator(s, i, 0, None).None?
    decreases pieces
  {
    if pieces != [] {
      OverFirst(s, i, pieces);
      FindsNone(s, i + |pieces[0].Text()|, pieces[1..]);
    }
  }

  lemma {:induction false} FindsFirst(s: Text, i: nat, pieces: seq<Piece>, k: nat, op: Operator)
    requires Readable(pieces) && FirstOperator(pieces) == Some((k, op))
    requires StandsAt(s, i, TextOf(pieces)) && i + |TextOf(pieces)| == |s|
    ensures FindOperator(s, i, 0, None) == Some((i + |TextOf(pieces[..k])|, op))
    decreases pieces
  {
    if OperatorHere(pieces).Some? {
      NextIsPlainEq(s, i, pieces);
      assert pieces[..0] == [];
    } else {
      OverFirst(s, i, pieces);
      FindsFirst(s, i + |pieces[0].Text()|, pieces[1..], k - 1, op);
      TextOfPrefix(pieces, k);
    }
  }

  lemma {:induction false} FirstOperatorHere(pieces: seq<Piece>, k: nat, op: Operator)
    requires FirstOperator(pieces) == Some((k, op))
    ensures k < |pieces| && OperatorHere(pieces[k..]) == Some(op)
    decreases k
  {
    if k == 0 {
      assert pieces[0..] == pieces;
    } else {
      FirstOperatorHere(pieces[1..], k - 1, op);
      assert pieces[1..][k - 1..] == pieces[k..];
    }
  }

  /** The units of the operator are plain pieces. */
  lemma OperatorPieces(pieces: seq<Piece>, op: Operator)
    requires AllValid(pieces) && pieces != [] && OperatorHere(pieces) == Some(op)
    ensures OperatorLength(op) <= |pieces| && OperatorLength(op) <= |TextOf(pieces)|
    ensures TextOf(pieces[OperatorLength(op)..]) == TextOf(pieces)[OperatorLength(op)..]
  {
    FirstUnit(pieces, pieces[0].c);
    if OperatorLength(op) == 2 {
      FirstUnit(pieces[1..], EQUALS);
      assert pieces[1..][1..] == pieces[2..];
      assert TextOf(pieces)[1..][1..] == TextOf(pieces)[2..];
    }
  }

  // ---------------------------------------------------------------------
  // The operators as they are written
  // ---------------------------------------------------------------------

  /** Section 2.3.5.1 of RFC 9535. */
  function Symbol(op: Operator): (s: string)
    ensures |s| == 1 || |s| == 2
    ensures s[0] as int < 0x80 && (|s| == 2 ==> s[1] as int < 0x80)
  {
    match op
    case Equal => "=="
    case NotEqual => "!="
    case Less => "<"
    case LessEqual => "<="
    case Greater => ">"
    case GreaterEqual => ">="
  }

  /** The operator stands among the top-level pieces at position `k`. */
  ghost predicate WrittenAt(pieces: seq<Piece>, k: nat, op: Operator) {
    var symbol := Symbol(op);
    && k + |symbol| <= |pieces| && pieces[k] == Plain(symbol[0] as int)
    && (|symbol| == 2 ==> pieces[k + 1] == Plain(symbol[1] as int))
  }

  lemma HereIsWritten(pieces: seq<Piece>, op: Operator)
    requires pieces != []
    ensures OperatorHere(pieces) == Some(op) ==> WrittenAt(pieces, 0, op)
    ensures WrittenAt(pieces, 0, op) ==>
              OperatorHere(pieces).Some? && |Symbol(op)| <= |Symbol(OperatorHere(pieces).value)|
    ensures OperatorLength(op) == |Symbol(op)|
  {
  }

  /** What is found first is the first operator written, and the longest written there. */
  lemma {:induction false} FirstIsWritten(pieces: seq<Piece>)
    ensures match FirstOperator(pieces)
            case None => forall k, op :: !WrittenAt(pieces, k, op)
            case Some((k, op)) =>
              && WrittenAt(pieces, k, op)
              && (forall j, o :: WrittenAt(pieces, j, o) ==> k < j || (j == k && |Symbol(o)| <= |Symbol(op)|))
  {
    if pieces != [] {
      FirstIsWritten(pieces[1..]);
      forall j: nat, o
        ensures j > 0 ==> (WrittenAt(pieces, j, o) <==> WrittenAt(pieces[1..], j - 1, o))
        ensures WrittenAt(pieces, 0, o) ==>
                  OperatorHere(pieces).Some? && |Symbol(o)| <= |Symbol(OperatorHere(pieces).value)|
        ensures OperatorHere(pieces) == Some(o) ==> WrittenAt(pieces, 0, o)
      {
        HereIsWritten(pieces, o);
        if j > 0 {
          WrittenBelow(pieces, j, o);
        }
      }
    }
  }

  lemma WrittenBelow(pieces: seq<Piece>, j: nat, op: Operator)
    requires pieces != [] && j > 0
    ensures WrittenAt(pieces, j, op) <==> WrittenAt(pieces[1..], j - 1, op)
  {
  }

  /** An operator starts at `k`, and before it as many parentheses and brackets open as close. */
  predicate OperatorPlace(s: Text, k: nat) {
    && k < |s| && OperatorAt(s[k], NextIsEq(s, k)).Some?
    && Count('(', s[..k]) + Count('[', s[..k]) == Count(')', s[..k]) + Count(']', s[..k])
  }

  predicate NoOperatorIn(s: Text, i: nat, end: nat) {
    forall j: nat :: i <= j < end ==> !OperatorPlace(s, j)
  }

  predicate FirstPlace(s: Text, i: nat, found: Option<(nat, Operator)>) {
    match found
    case Some((k, op)) =>
      i <= k && OperatorPlace(s, k) && OperatorAt(s[k], NextIsEq(s, k)) == Some(op) && NoOperatorIn(s, i, k)
    case None => NoOperatorIn(s, i, |s|)
  }

  function DepthOf(s: Text): int {
    Count('(', s) + Count('[', s) - Count(')', s) - Count(']', s)
  }

  lemma DepthOfMore(s: Text, c: CodeUnit)
    ensures DepthOf(s + [c]) == if Opens(c) then DepthOf(s) + 1 else if Closes(c) then DepthOf(s) - 1 else DepthOf(s)
  {
  }

  lemma FirstPlaceLater(s: Text, i: nat, found: Option<(nat, Operator)>)
    requires FirstPlace(s, i + 1, found) && !OperatorPlace(s, i)
    ensures FirstPlace(s, i, found)
  {
  }

  lemma OneMoreUnit(s: Text, i: nat)
    requires NoQuotes(s) && i < |s|
    ensures FindOperator(s, i, DepthOf(s[..i]), None) ==
            if OperatorPlace(s, i) then Some((i, OperatorAt(s[i], NextIsEq(s, i)).value))
            else FindOperator(s, i + 1, DepthOf(s[..i + 1]), None)
  {
    assert s[..i + 1] == s[..i] + [s[i]];
    DepthOfMore(s[..i], s[i]);
  }

  lemma {:induction false} FindOperatorFrom(s: Text, i: nat)
    requires NoQuotes(s) && i <= |s|
    ensures FirstPlace(s, i, FindOperator(s, i, DepthOf(s[..i]), None))
    decreases |s| - i
  {
    if i < |s| {
      OneMoreUnit(s, i);
      if !OperatorPlace(s, i) {
        FindOperatorFrom(s, i + 1);
        FirstPlaceLater(s, i, FindOperator(s, i + 1, DepthOf(s[..i + 1]), None));
      }
    }
  }

  /**
   * Text without quotes is split at the first operator before which as many
   * parentheses and brackets open as close, nested or not.
   */
  lemma UnquotedOperator(s: Text)
    requires NoQuotes(s)
    ensures FirstPlace(s, 0, FindOperator(s, 0, 0, None))
  {
    assert s[..0] == [];
    FindOperatorFrom(s, 0);
  }

  /** Without an operator outside its quotes and brackets an expression is not split. */
  lemma NoOperatorNoSplit(pieces: seq<Piece>)
    requires Readable(pieces) && FirstOperator(pieces).None?
    ensures SplitAtOperator(TextOf(pieces)) == None
  {
    FindsNone(TextOf(pieces), 0, pieces);
  }

  lemma SplitAround(s: Text, at: nat, op: Operator)
    requires FindOperator(s, 0, 0, None) == Some((at, op))
    ensures at + OperatorLength(op) <= |s|
    ensures SplitAtOperator(s) == Some(Split(s[..at], op, s[at + OperatorLength(op)..]))
  {
    OperatorIsInside(s, 0, 0, None);
  }

  lemma TextsAroundOperator(pieces: seq<Piece>, k: nat, op: Operator)
    requires AllValid(pieces) && FirstOperator(pieces) == Some((k, op))
    ensures var left := TextOf(pieces[..k]);
            && |left| + OperatorLength(op) <= |TextOf(pieces)|
            && TextOf(pieces)[..|left|] == left
            && TextOf(pieces)[|left| + OperatorLength(op)..] == TextOf(pieces[k + OperatorLength(op)..])
  {
    var left, right := pieces[..k], pieces[k..];
    FirstOperatorHere(pieces, k, op);
    OperatorPieces(right, op);
    assert pieces == left + right;
    assert right[OperatorLength(op)..] == pieces[k + OperatorLength(op)..];
    TextOfConcat(left, right);
    SuffixOfConcat(TextOf(left), TextOf(right), OperatorLength(op));
  }

  lemma SplitWhere(s: Text, left: Text, op: Operator, right: Text)
    requires FindOperator(s, 0, 0, None) == Some((|left|, op)) && |left| + OperatorLength(op) <= |s|
    requires s[..|left|] == left && s[|left| + OperatorLength(op)..] == right
    ensures SplitAtOperator(s) == Some(Split(left, op, right))
  {
    SplitAround(s, |left|, op);
  }

  /** Otherwise it is split at the first one, however much its quotes and brackets contain. */
  lemma SplitsAtFirst(pieces: seq<Piece>, k: nat, op: Operator)
    requires Readable(pieces) && FirstOperator(pieces) == Some((k, op))
    ensures SplitAtOperator(TextOf(pieces)) ==
            Some(Split(TextOf(pieces[..k]), op, TextOf(pieces[k + OperatorLength(op)..])))
  {
    var text, left, right := TextOf(pieces), TextOf(pieces[..k]), TextOf(pieces[k + OperatorLength(op)..]);
    assert FindOperator(text, 0, 0, None) == Some((|left|, op)) by {
      FindsFirst(text, 0, pieces, k, op);
    }
    assert |left| + OperatorLength(op) <= |text| && text[..|left|] == left
           && text[|left| + OperatorLength(op)..] == right by {
      TextsAroundOperator(pieces, k, op);
    }
    SplitWhere(text, left, op, right);
  }
}
