/** Relative singular queries of filter expressions (section 2.3.5.1 of RFC 9535). */
module SingularQuery {
  import opened JsonValue
  import opened PointerEvaluation
  import Decimal
  import Names = QuotedName

  /** A member name or an array index. */
  datatype Segment = Member(name: Text) | Element(index: int)

  datatype QueryError =
    | InvalidIndex
    | InvalidMemberName
    | InvalidQuotedName
    | NotRelative
    | NotSingular
    | UnexpectedCharacter
    | UnterminatedBracket

  /** Qt's character tables: the value of a decimal digit of any script, and the white space that `trimmed` removes. */
  datatype Tables = Tables(digit: CodeUnit -> Option<nat>, space: CodeUnit -> bool)

  ghost predicate IsTables(t: Tables) {
    && Names.IsDigitTable(t.digit)
    && forall u :: u < 0x80 ==> (t.space(u) <==> 0x09 <= u <= 0x0D || u == 0x20)
  }

  const AT: CodeUnit := 0x40
  const DOT: CodeUnit := 0x2E
  const STAR: CodeUnit := 0x2A
  const COMMA: CodeUnit := 0x2C
  const COLON: CodeUnit := 0x3A
  const QUESTION: CodeUnit := 0x3F
  const MINUS: CodeUnit := 0x2D
  const BRACKET_OPEN: CodeUnit := 0x5B
  const BRACKET_CLOSE: CodeUnit := 0x5D
  const SAFE_LIMIT := 0x20_0000_0000_0000

  predicate IsNameFirst(c: CodeUnit) {
    0x61 <= c <= 0x7A || 0x41 <= c <= 0x5A || c == 0x5F || c >= 0x80
  }

  predicate IsNameChar(c: CodeUnit) {
    IsNameFirst(c) || 0x30 <= c <= 0x39
  }

  predicate IsBlank(c: CodeUnit) {
    c == 0x20 || c == 0x09 || c == 0x0A || c == 0x0D
  }

  predicate IsQuote(c: CodeUnit) {
    c == Names.APOSTROPHE || c == Names.QUOTE
  }

  function StyleOf(quote: CodeUnit): Names.QuoteStyle {
    if quote == Names.APOSTROPHE then Names.SingleQuote else Names.DoubleQuote
  }

  // ---------------------------------------------------------------------
  // White space and numbers
  // ---------------------------------------------------------------------

  function TrimStart(s: Text, space: CodeUnit -> bool): Text {
    if s != [] && space(s[0]) then TrimStart(s[1..], space) else s
  }

  function TrimEnd(s: Text, space: CodeUnit -> bool): Text {
    if s != [] && space(s[|s| - 1]) then TrimEnd(s[..|s| - 1], space) else s
  }

  function Trimmed(s: Text, space: CodeUnit -> bool): Text {
    TrimEnd(TrimStart(s, space), space)
  }

  lemma {:induction false} TrimEndKeepsStart(s: Text, space: CodeUnit -> bool)
    ensures TrimEnd(s, space) <= s
    ensures TrimEnd(s, space) != [] ==> !space(TrimEnd(s, space)[|TrimEnd(s, space)| - 1])
    decreases |s|
  {
    if s != [] && space(s[|s| - 1]) {
      TrimEndKeepsStart(s[..|s| - 1], space);
    }
  }

  lemma LastIsNoBlank(text: Text, t: Tables)
    requires IsTables(t) && Trimmed(text, t.space) != []
    ensures var s := Trimmed(text, t.space); !IsBlank(s[|s| - 1])
  {
    TrimEndKeepsStart(TrimStart(text, t.space), t.space);
  }

  /** An integer literal below 2^53 in magnitude, without plus sign or leading zeros. */
  function IndexLiteral(s: Text): Option<int> {
    if s == [Decimal.ZERO] then Some(0)
    else if s == [] then None
    else if s[0] == MINUS then
      if PositiveLiteral(s[1..]) then Some(0 - Decimal.ValueOf(s[1..])) else None
    else if PositiveLiteral(s) then Some(Decimal.ValueOf(s))
    else None
  }

  predicate PositiveLiteral(s: Text) {
    s != [] && Decimal.AllDigits(s) && s[0] != Decimal.ZERO && Decimal.ValueOf(s) < SAFE_LIMIT
  }

  /** What scanIndex accepts between the brackets: no blanks at the ends, though other white space. */
  function IndexContent(s: Text, t: Tables): Option<int> {
    if s == [] || IsBlank(s[0]) || IsBlank(s[|s| - 1]) then None else IndexLiteral(Trimmed(s, t.space))
  }

  // ---------------------------------------------------------------------
  // The scanners, on the remaining text
  // ---------------------------------------------------------------------

  function NameLength(s: Text): (n: nat)
    ensures n <= |s|
  {
    if s != [] && IsNameChar(s[0]) then 1 + NameLength(s[1..]) else 0
  }

  /** ".name": the name and the text after it. */
  function ScanShorthand(s: Text): (r: Result<(Text, Text), QueryError>)
    requires s != []
    ensures r.Ok? ==> |r.value.1| < |s|
  {
    if |s| == 1 then Err(InvalidMemberName)
    else if s[1] == DOT || s[1] == STAR then Err(NotSingular)
    else if !IsNameFirst(s[1]) then Err(InvalidMemberName)
    else
      var n := NameLength(s[1..]);
      Ok((s[1..1 + n], s[1 + n..]))
  }

  /** The first quote from position `i` on that no backslash escapes. */
  function QuoteEnd(s: Text, i: nat, quote: CodeUnit): (r: Option<nat>)
    requires i <= |s|
    ensures r.Some? ==> i <= r.value < |s| && s[r.value] == quote
    decreases |s| - i
  {
    if i == |s| then None
    else if s[i] == quote then Some(i)
    else
      var next := i + if s[i] == Names.BACKSLASH then 2 else 1;
      if next > |s| then None else QuoteEnd(s, next, quote)
  }

  function ScanQuotedName(s: Text, t: Tables): (r: Result<(Text, Text), QueryError>)
    requires s != [] && IsQuote(s[0])
    ensures r.Ok? ==> |r.value.1| < |s|
  {
    match QuoteEnd(s, 1, s[0])
    case None => Err(UnterminatedBracket)
    case Some(end) =>
      var content := s[1..end];
      if Names.ValidName(content, StyleOf(s[0]), t.digit) then Ok((Names.Unescaped(content), s[end + 1..]))
      else Err(InvalidQuotedName)
  }

  function IndexOf(s: Text, c: CodeUnit): (r: Option<nat>)
    ensures r.Some? ==> r.value < |s| && s[r.value] == c && forall i :: 0 <= i < r.value ==> s[i] != c
    ensures r.None? ==> c !in s
  {
    if s == [] then None
    else if s[0] == c then Some(0)
    else
      match IndexOf(s[1..], c)
      case None => None
      case Some(k) => Some(k + 1)
  }

  predicate HasSelector(s: Text) {
    COLON in s || COMMA in s || STAR in s || QUESTION in s
  }

  /** The text before the closing bracket, and the text from that bracket on. */
  function ScanIndex(s: Text, t: Tables): (r: Result<(int, Text), QueryError>)
    ensures r.Ok? ==> 0 < |r.value.1| <= |s|
  {
    match IndexOf(s, BRACKET_CLOSE)
    case None => Err(UnterminatedBracket)
    case Some(close) =>
      var content := s[..close];
      if HasSelector(content) then Err(NotSingular)
      else
        match IndexContent(content, t)
        case None => Err(InvalidIndex)
        case Some(index) => Ok((index, s[close..]))
  }

  function ScanBracket(s: Text, t: Tables): (r: Result<(Segment, Text), QueryError>)
    requires s != []
    ensures r.Ok? ==> |r.value.1| < |s|
  {
    if |s| == 1 then Err(UnterminatedBracket)
    else if IsQuote(s[1]) then
      match ScanQuotedName(s[1..], t)
      case Err(e) => Err(e)
      case Ok((name, rest)) =>
        if rest == [] then Err(UnterminatedBracket)
        else if rest[0] == BRACKET_CLOSE then Ok((Member(name), rest[1..]))
        else if rest[0] == COMMA then Err(NotSingular)
        else Err(UnterminatedBracket)
    else
      match ScanIndex(s[1..], t)
      case Err(e) => Err(e)
      case Ok((index, rest)) => Ok((Element(index), rest[1..]))
  }

  function SkipBlanks(s: Text): (r: Text)
    ensures |r| <= |s|
  {
    if s != [] && IsBlank(s[0]) then SkipBlanks(s[1..]) else s
  }

  function ScanSegment(s: Text, t: Tables): (r: Result<(Segment, Text), QueryError>)
    requires s != []
    ensures r.Ok? ==> |r.value.1| < |s|
  {
    if s[0] == DOT then
      match ScanShorthand(s)
      case Err(e) => Err(e)
      case Ok((name, rest)) => Ok((Member(name), rest))
    else if s[0] == BRACKET_OPEN then ScanBracket(s, t)
    else Err(UnexpectedCharacter)
  }

  function ParseSegments(s: Text, t: Tables): Result<seq<Segment>, QueryError>
    decreases |s|
  {
    if s == [] then Ok([])
    else if SkipBlanks(s) == [] then Err(UnexpectedCharacter)
    else
      match ScanSegment(SkipBlanks(s), t)
      case Err(e) => Err(e)
      case Ok((segment, rest)) =>
        After([segment], ParseSegments(rest, t))
  }

  function After(done: seq<Segment>, r: Result<seq<Segment>, QueryError>): Result<seq<Segment>, QueryError> {
    match r
    case Err(e) => Err(e)
    case Ok(more) => Ok(done + more)
  }

  function Parsed(text: Text, t: Tables): Result<seq<Segment>, QueryError> {
    var s := Trimmed(text, t.space);
    if s == [] || s[0] != AT then Err(NotRelative) else ParseSegments(s[1..], t)
  }

  // ---------------------------------------------------------------------
  // The loops
  // ---------------------------------------------------------------------

  method ShorthandAt(text: Text, pos: nat) returns (r: Result<Text, QueryError>, next: nat)
    requires pos < |text|
    ensures next <= |text|
    ensures match ScanShorthand(text[pos..])
            case Err(e) => r == Err(e)
            case Ok((name, rest)) => r == Ok(name) && rest == text[next..]
  {
    next := pos + 1;
    if next >= |text| {
      return Err(InvalidMemberName), next;
    }
    var first := text[next];
    if first == DOT || first == STAR {
      return Err(NotSingular), next;
    }
    if !IsNameFirst(first) {
      return Err(InvalidMemberName), next;
    }
    var start := next;
    ghost var s := text[pos..];
    assert s[1..] == text[start..];
    while next < |text| && IsNameChar(text[next])
      invariant start <= next <= |text|
      invariant NameLength(s[1..]) == next - start + NameLength(text[next..])
    {
      assert text[next..][1..] == text[next + 1..];
      next := next + 1;
    }
    assert s[1..1 + (next - start)] == text[start..next] && s[1 + (next - start)..] == text[next..];
    return Ok(text[start..next]), next;
  }

  method QuoteEndAt(text: Text, start: nat, quote: CodeUnit) returns (end: nat)
    requires start <= |text|
    ensures start <= end
    ensures QuoteEnd(text, start, quote) == if end < |text| then Some(end) else None
  {
    end := start;
    while end < |text| && text[end] != quote
      invariant start <= end
      invariant QuoteEnd(text, start, quote) == if end > |text| then None else QuoteEnd(text, end, quote)
    {
      end := end + if text[end] == Names.BACKSLASH then 2 else 1;
    }
  }

  lemma {:induction false} QuoteEndInSuffix(text: Text, pos: nat, i: nat, quote: CodeUnit)
    requires pos + i <= |text|
    ensures QuoteEnd(text, pos + i, quote) == match QuoteEnd(text[pos..], i, quote)
                                              case None => None
                                              case Some(k) => Some(pos + k)
    decreases |text| - i
  {
    if pos + i < |text| && text[pos + i] != quote {
      var step := if text[pos + i] == Names.BACKSLASH then 2 else 1;
      if pos + i + step <= |text| {
        QuoteEndInSuffix(text, pos, i + step, quote);
      }
    }
  }

  method QuotedNameAt(text: Text, pos: nat, t: Tables) returns (r: Result<Text, QueryError>, next: nat)
    requires IsTables(t) && pos < |text| && IsQuote(text[pos])
    ensures next <= |text|
    ensures match ScanQuotedName(text[pos..], t)
            case Err(e) => r == Err(e)
            case Ok((name, rest)) => r == Ok(name) && rest == text[next..]
  {
    var quote := text[pos];
    var start := pos + 1;
    next := pos;
    ghost var s := text[pos..];
    QuoteEndInSuffix(text, pos, 1, quote);
    var end := QuoteEndAt(text, start, quote);
    if end >= |text| {
      return Err(UnterminatedBracket), next;
    }
    var content := text[start..end];
    assert content == s[1..end - pos];
    var valid := Names.IsValidQuotedKey(content, StyleOf(quote), t.digit);
    if !valid {
      return Err(InvalidQuotedName), next;
    }
    next := end + 1;
    assert s[end - pos + 1..] == text[next..];
    var name := Names.UnescapeQuotedKey(content);
    return Ok(name), next;
  }

  method BracketAt(text: Text, pos: nat, t: Tables) returns (r: Result<Segment, QueryError>, next: nat)
    requires IsTables(t) && pos < |text|
    ensures next <= |text|
    ensures match ScanBracket(text[pos..], t)
            case Err(e) => r == Err(e)
            case Ok((segment, rest)) => r == Ok(segment) && rest == text[next..]
  {
    next := pos + 1;
    ghost var s := text[pos..];
    assert s[1..] == text[next..];
    if next >= |text| {
      return Err(UnterminatedBracket), next;
    }
    if IsQuote(text[next]) {
      var name;
      name, next := QuotedNameAt(text, next, t);
      if name.Err? {
        return Err(name.error), next;
      }
      if next >= |text| {
        return Err(UnterminatedBracket), next;
      }
      if text[next] != BRACKET_CLOSE {
        return Err(if text[next] == COMMA then NotSingular else UnterminatedBracket), next;
      }
      assert text[next..][1..] == text[next + 1..];
      return Ok(Member(name.value)), next + 1;
    }
    var index := ScanIndex(text[next..], t);
    if index.Err? {
      return Err(index.error), next;
    }
    var close := |text| - |index.value.1|;
    IndexRest(text, next, t);
    return Ok(Element(index.value.0)), close + 1;
  }

  lemma IndexRest(text: Text, pos: nat, t: Tables)
    requires pos <= |text| && ScanIndex(text[pos..], t).Ok?
    ensures var rest := ScanIndex(text[pos..], t).value.1;
            rest[1..] == text[|text| - |rest| + 1..]
  {
    var s := text[pos..];
    var close := IndexOf(s, BRACKET_CLOSE).value;
    assert s[close..] == text[pos + close..];
  }

  lemma AfterAfter(a: seq<Segment>, b: Segment, r: Result<seq<Segment>, QueryError>)
    ensures After(a, After([b], r)) == After(a + [b], r)
    ensures After([], r) == r
  {
    if r.Ok? {
      assert a + ([b] + r.value) == (a + [b]) + r.value;
      assert [] + r.value == r.value;
    }
  }

  /** S between segments; the last unit is no blank, so the scan ends inside the text. */
  method BlanksAt(text: Text, pos: nat) returns (next: nat)
    requires pos < |text| && !IsBlank(text[|text| - 1])
    ensures pos <= next < |text| && text[next..] == SkipBlanks(text[pos..])
  {
    next := pos;
    while IsBlank(text[next])
      invariant pos <= next < |text|
      invariant SkipBlanks(text[pos..]) == SkipBlanks(text[next..])
      decreases |text| - next
    {
      assert text[next..][1..] == text[next + 1..];
      next := next + 1;
    }
  }

  method SegmentAt(text: Text, pos: nat, t: Tables) returns (r: Result<Segment, QueryError>, next: nat)
    requires IsTables(t) && pos < |text|
    ensures next <= |text|
    ensures match ScanSegment(text[pos..], t)
            case Err(e) => r == Err(e)
            case Ok((segment, rest)) => r == Ok(segment) && rest == text[next..]
  {
    if text[pos] == DOT {
      var name;
      name, next := ShorthandAt(text, pos);
      return if name.Ok? then Ok(Member(name.value)) else Err(name.error), next;
    } else if text[pos] == BRACKET_OPEN {
      r, next := BracketAt(text, pos, t);
    } else {
      return Err(UnexpectedCharacter), pos;
    }
  }

  method Parse(text: Text, t: Tables) returns (r: Result<seq<Segment>, QueryError>)
    requires IsTables(t)
    ensures r == Parsed(text, t)
  {
    var s := Trimmed(text, t.space);
    if s == [] || s[0] != AT {
      return Err(NotRelative);
    }
    LastIsNoBlank(text, t);
    var segments: seq<Segment> := [];
    var pos := 1;
    AfterAfter([], Member([]), ParseSegments(s[1..], t));
    while pos < |s|
      invariant 1 <= pos <= |s|
      invariant Parsed(text, t) == After(segments, ParseSegments(s[pos..], t))
      decreases |s| - pos
    {
      var start := BlanksAt(s, pos);
      var segment, next := SegmentAt(s, start, t);
      if segment.Err? {
        return Err(segment.error);
      }
      AfterAfter(segments, segment.value, ParseSegments(s[next..], t));
      segments, pos := segments + [segment.value], next;
    }
    assert segments + [] == segments;
    return Ok(segments);
  }

  // ---------------------------------------------------------------------
  // Resolving a query
  // ---------------------------------------------------------------------

  /** A negative index counts from the end. */
  function Position(items: seq<Json>, index: int): Option<nat> {
    var i := if index < 0 then index + |items| else index;
    if 0 <= i < |items| then Some(i) else None
  }

  function Step(node: Json, segment: Segment): Option<Json> {
    match segment
    case Member(name) => if node.Obj? && name in node.members then Some(node.members[name]) else None
    case Element(index) =>
      if node.Arr? && Position(node.items, index).Some? then
        Some(node.items[Position(node.items, index).value])
      else None
  }

  function Resolved(node: Json, segments: seq<Segment>): Option<Json> {
    if segments == [] then Some(node)
    else if Step(node, segments[0]).None? then None
    else Resolved(Step(node, segments[0]).value, segments[1..])
  }

  method Resolve(node: Json, segments: seq<Segment>) returns (r: Option<Json>)
    ensures r == Resolved(node, segments)
  {
    var current := node;
    var k := 0;
    assert segments[0..] == segments;
    while k < |segments|
      invariant 0 <= k <= |segments|
      invariant Resolved(node, segments) == Resolved(current, segments[k..])
    {
      assert segments[k..][1..] == segments[k + 1..];
      match segments[k] {
        case Member(name) =>
          if !current.Obj? || name !in current.members {
            return None;
          }
          current := current.members[name];
        case Element(index) =>
          if !current.Arr? {
            return None;
          }
          var normalized := if index < 0 then index + |current.items| else index;
          if normalized < 0 || normalized >= |current.items| {
            return None;
          }
          current := current.items[normalized];
      }
      k := k + 1;
    }
    return Some(current);
  }

  /** The pointer token that takes a query's step. */
  function TokenOf(node: Json, segment: Segment): Token
    requires Step(node, segment).Some?
  {
    match segment
    case Member(name) => KeyToken(name)
    case Element(index) =>
      var i := Position(node.items, index).value;
      IndexToken(i, Decimal.Digits(i))
  }

  /** The `i`-th token takes the step of the `i`-th segment, from the value that the tokens before it lead to. */
  predicate TakesStep(node: Json, segments: seq<Segment>, tokens: seq<Token>, i: nat)
    requires i < |segments| == |tokens|
  {
    var met := Lookup(node, tokens[..i]);
    && met.Ok?
    && match segments[i]
       case Member(name) => met.value.Obj? && tokens[i] == KeyToken(name)
       case Element(index) =>
         && met.value.Arr? && tokens[i].IndexToken?
         && tokens[i].index == if index < 0 then index + |met.value.items| else index
  }

  lemma TakesLaterStep(node: Json, segments: seq<Segment>, tokens: seq<Token>, i: nat, child: Json)
    requires 0 < i < |segments| == |tokens| && Child(node, tokens[0]) == Ok(child)
    ensures TakesStep(node, segments, tokens, i) <==> TakesStep(child, segments[1..], tokens[1..], i - 1)
  {
    assert tokens[..i][0] == tokens[0] && tokens[..i][1..] == tokens[1..][..i - 1];
  }

  /**
   * Whatever a query selects has a JSON Pointer, with the same member names and
   * positions, negative ones from the end.
   */
  lemma {:induction false} SelectedHasPointer(node: Json, segments: seq<Segment>) returns (tokens: seq<Token>)
    requires Resolved(node, segments).Some?
    ensures |tokens| == |segments| && Lookup(node, tokens) == Ok(Resolved(node, segments).value)
    ensures forall i :: 0 <= i < |segments| ==> TakesStep(node, segments, tokens, i)
    decreases segments
  {
    if segments == [] {
      tokens := [];
    } else {
      var next := Step(node, segments[0]).value;
      var rest := SelectedHasPointer(next, segments[1..]);
      tokens := [TokenOf(node, segments[0])] + rest;
      assert tokens[1..] == rest;
      forall i | 0 <= i < |segments|
        ensures TakesStep(node, segments, tokens, i)
      {
        if i == 0 {
          assert tokens[..0] == [];
        } else {
          TakesLaterStep(node, segments, tokens, i, next);
        }
      }
    }
  }

  /** Whatever such a pointer leads to, the query selects. */
  lemma {:induction false} PointerIsSelected(node: Json, segments: seq<Segment>, tokens: seq<Token>)
    requires |tokens| == |segments| && Lookup(node, tokens).Ok?
    requires forall i :: 0 <= i < |segments| ==> TakesStep(node, segments, tokens, i)
    ensures Resolved(node, segments) == Some(Lookup(node, tokens).value)
    decreases segments
  {
    if segments != [] {
      assert TakesStep(node, segments, tokens, 0) && tokens[..0] == [];
      var child := Child(node, tokens[0]).value;
      forall i | 0 <= i < |segments| - 1
        ensures TakesStep(child, segments[1..], tokens[1..], i)
      {
        TakesLaterStep(node, segments, tokens, i + 1, child);
      }
      PointerIsSelected(child, segments[1..], tokens[1..]);
    }
  }

  /** Resolving in two parts is resolving from the node the first part selects. */
  lemma {:induction false} ResolveConcat(node: Json, a: seq<Segment>, b: seq<Segment>)
    ensures Resolved(node, a + b) == match Resolved(node, a)
                                     case None => None
                                     case Some(next) => Resolved(next, b)
    decreases a
  {
    if a == [] {
      assert a + b == b;
    } else {
      assert (a + b)[1..] == a[1..] + b;
      if Step(node, a[0]).Some? {
        ResolveConcat(Step(node, a[0]).value, a[1..], b);
      }
    }
  }
}
