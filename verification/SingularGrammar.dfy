/** The grammar of relative singular queries, and that the parser accepts exactly its texts. */
module SingularGrammar {
  import opened JsonValue
  import opened SingularQuery
  import Decimal
  import Names = QuotedName
  import Nested = NestedText

  /** One segment as it is written: .name, ['name'] or ["name"], [index]. */
  datatype SegmentText =
    | Shorthand(name: Text)
    | Bracketed(style: Names.QuoteStyle, content: Text)
    | Indexed(digits: Text)
  {
    predicate Valid(t: Tables) {
      match this
      case Shorthand(name) => name != [] && !IsAsciiDigit(name[0]) && AllNameUnits(name)
      case Bracketed(style, content) => Names.ValidName(content, style, t.digit)
      case Indexed(digits) => IsIndexText(digits, t)
    }

    function Text(): Text {
      match this
      case Shorthand(name) => ['.' as int] + name
      case Bracketed(style, content) => ['[' as int] + QuotedText(style, content) + [']' as int]
      case Indexed(digits) => ['[' as int] + digits + [']' as int]
    }

    function Value(t: Tables): Segment
      requires Valid(t)
    {
      match this
      case Shorthand(name) => Member(name)
      case Bracketed(_, content) => Member(Names.Unescaped(content))
      case Indexed(digits) => Element(IndexContent(digits, t).value)
    }
  }

  function QuotedText(style: Names.QuoteStyle, content: Text): Text {
    var quote := if style.SingleQuote? then 0x27 else 0x22;
    [quote] + content + [quote]
  }

  predicate IsAsciiDigit(c: CodeUnit) {
    '0' as int <= c <= '9' as int
  }

  /** Letters, digits, the underscore, and all beyond ASCII. */
  predicate AllNameUnits(name: Text) {
    forall i :: 0 <= i < |name| ==>
      || 'a' as int <= name[i] <= 'z' as int || 'A' as int <= name[i] <= 'Z' as int || IsAsciiDigit(name[i])
      || name[i] == '_' as int || name[i] >= 0x80
  }

  lemma {:induction false} NameUnitsAreCounted(name: Text)
    ensures AllNameUnits(name) <==> NameLength(name) == |name|
  {
    if name != [] && IsNameChar(name[0]) {
      NameUnitsAreCounted(name[1..]);
      assert name == [name[0]] + name[1..];
    }
  }

  predicate IsIndexText(s: Text, t: Tables) {
    IndexContent(s, t).Some? && !IsQuote(s[0]) && !HasSelector(s) && BRACKET_CLOSE !in s
  }

  /** A segment and the blanks before it. */
  datatype Part = Part(blanks: Text, segment: SegmentText)

  predicate AllBlank(s: Text) {
    forall i :: 0 <= i < |s| ==> s[i] == 0x20 || s[i] == 0x09 || s[i] == 0x0A || s[i] == 0x0D
  }

  predicate ValidParts(parts: seq<Part>, t: Tables) {
    forall i :: 0 <= i < |parts| ==> AllBlank(parts[i].blanks) && parts[i].segment.Valid(t)
  }

  function PartsText(parts: seq<Part>): Text {
    if parts == [] then [] else parts[0].blanks + (parts[0].segment.Text() + PartsText(parts[1..]))
  }

  function Values(parts: seq<Part>, t: Tables): (r: seq<Segment>)
    requires ValidParts(parts, t)
    ensures |r| == |parts|
  {
    if parts == [] then [] else [parts[0].segment.Value(t)] + Values(parts[1..], t)
  }

  // ---------------------------------------------------------------------
  // Slices
  // ---------------------------------------------------------------------

  lemma Wrapped(open: CodeUnit, a: Text, close: CodeUnit, rest: Text)
    ensures var s := [open] + a + [close] + rest;
            && s[0] == open && s[1..1 + |a|] == a && s[1 + |a|] == close && s[2 + |a|..] == rest
  {
  }

  lemma WrappedTail(open: CodeUnit, a: Text, close: CodeUnit, rest: Text)
    ensures ([open] + a + [close] + rest)[1..] == a + ([close] + rest)
    ensures (a + ([close] + rest))[..|a|] == a && (a + ([close] + rest))[|a|..] == [close] + rest
    ensures ([close] + rest)[1..] == rest
  {
  }

  lemma SplitAt(s: Text, k: nat)
    requires k < |s|
    ensures s == s[..k] + [s[k]] + s[k + 1..]
  {
  }

  lemma SplitQuoted(s: Text, k: nat)
    requires 0 < k < |s|
    ensures s == [s[0]] + s[1..k] + [s[k]] + s[k + 1..]
  {
  }

  lemma Regroup(a: Text, b: Text, c: Text, d: Text, e: Text)
    ensures a + (b + (c + (d + e))) == (a + (b + (c + d))) + e
  {
  }

  // ---------------------------------------------------------------------
  // Texts of the grammar are parsed
  // ---------------------------------------------------------------------

  predicate EndsName(rest: Text) {
    rest == [] || !IsNameChar(rest[0])
  }

  lemma {:induction false} NameLengthStops(name: Text, rest: Text)
    requires NameLength(name) == |name| && EndsName(rest)
    ensures NameLength(name + rest) == |name|
  {
    if name == [] {
      assert name + rest == rest;
    } else {
      assert (name + rest)[1..] == name[1..] + rest;
      NameLengthStops(name[1..], rest);
    }
  }

  lemma {:induction false} QuoteEndOverPlain(s: Text, i: nat, m: nat, quote: CodeUnit)
    requires i + m <= |s|
    requires forall j :: i <= j < i + m ==> s[j] != quote && s[j] != Names.BACKSLASH
    ensures QuoteEnd(s, i, quote) == QuoteEnd(s, i + m, quote)
    decreases m
  {
    if m > 0 {
      QuoteEndOverPlain(s, i + 1, m - 1, quote);
    }
  }

  lemma HexUnitsArePlain(s: Text, digit: CodeUnit -> Option<nat>)
    requires Names.IsDigitTable(digit) && Names.HexEscape(s, digit).Some?
    ensures forall j :: 2 <= j < 6 ==> !IsQuote(s[j]) && s[j] != Names.BACKSLASH
  {
    forall j | 2 <= j < 6
      ensures !IsQuote(s[j]) && s[j] != Names.BACKSLASH
    {
      assert s[2..6][j - 2] == s[j] && Names.HexValue(s[2..6][j - 2], digit).Some?;
    }
  }

  lemma QuoteEndOverHex(s: Text, i: nat, quote: CodeUnit, digit: CodeUnit -> Option<nat>)
    requires Names.IsDigitTable(digit) && i + 6 <= |s| && IsQuote(quote) && Names.HexEscape(s[i..], digit).Some?
    ensures QuoteEnd(s, i, quote) == QuoteEnd(s, i + 6, quote)
  {
    HexUnitsArePlain(s[i..], digit);
    assert forall j :: 2 <= j < 6 ==> s[i..][j] == s[i + j];
    assert s[i..][0] == s[i];
    forall j | i + 2 <= j < i + 6
      ensures s[j] != quote && s[j] != Names.BACKSLASH
    {
      assert s[j] == s[i..][j - i];
    }
    QuoteEndOverPlain(s, i + 2, 4, quote);
  }

  lemma HexOfPrefix(s: Text, rest: Text, digit: CodeUnit -> Option<nat>)
    requires Names.HexEscape(s, digit).Some?
    ensures Names.HexEscape(s + rest, digit) == Names.HexEscape(s, digit)
  {
    assert (s + rest)[2..6] == s[2..6];
  }

  /** An item of a valid name is passed over whole. */
  lemma QuoteEndOverItem(s: Text, i: nat, content: Text, style: Names.QuoteStyle, digit: CodeUnit -> Option<nat>)
    requires Names.IsDigitTable(digit) && content != [] && Names.Item(content, style, digit).Some?
    requires i <= |s| && content <= s[i..]
    ensures var n := Names.Item(content, style, digit).value.0;
            i + n <= |s| && QuoteEnd(s, i, Names.QuoteUnit(style)) == QuoteEnd(s, i + n, Names.QuoteUnit(style))
  {
    var n := Names.Item(content, style, digit).value.0;
    var quote, rest := Names.QuoteUnit(style), s[i..][|content|..];
    assert s[i..] == content + rest;
    assert s[i] == content[0];
    if n >= 6 {
      HexOfPrefix(content, rest, digit);
      QuoteEndOverHex(s, i, quote, digit);
      if n == 12 {
        HexOfPrefix(content[6..], rest, digit);
        assert s[i + 6..] == content[6..] + rest;
        QuoteEndOverHex(s, i + 6, quote, digit);
      }
    }
  }

  lemma {:induction false} QuoteEndOfName(s: Text, i: nat, content: Text, style: Names.QuoteStyle,
                                         digit: CodeUnit -> Option<nat>)
    requires Names.IsDigitTable(digit) && Names.ValidName(content, style, digit)
    requires i + |content| < |s| && content <= s[i..] && s[i + |content|] == Names.QuoteUnit(style)
    ensures QuoteEnd(s, i, Names.QuoteUnit(style)) == Some(i + |content|)
    decreases |content|
  {
    if content != [] {
      var n := Names.Item(content, style, digit).value.0;
      QuoteEndOverItem(s, i, content, style, digit);
      assert s[i..][n..] == s[i + n..];
      assert content[n..] <= s[i + n..];
      QuoteEndOfName(s, i + n, content[n..], style, digit);
    }
  }

  lemma ShorthandIsScanned(name: Text, rest: Text, t: Tables)
    requires Shorthand(name).Valid(t) && EndsName(rest)
    ensures ScanSegment(Shorthand(name).Text() + rest, t) == Ok((Member(name), rest))
  {
    var s := Shorthand(name).Text() + rest;
    assert s[1..] == name + rest;
    NameUnitsAreCounted(name);
    NameLengthStops(name, rest);
    assert s[1..1 + |name|] == name && s[1 + |name|..] == rest;
  }

  lemma QuotedIsScanned(style: Names.QuoteStyle, content: Text, rest: Text, t: Tables)
    requires IsTables(t) && Names.ValidName(content, style, t.digit)
    ensures ScanQuotedName(QuotedText(style, content) + rest, t) == Ok((Names.Unescaped(content), rest))
  {
    var quote := Names.QuoteUnit(style);
    var s := QuotedText(style, content) + rest;
    Wrapped(quote, content, quote, rest);
    assert content <= s[1..] by {
      WrappedTail(quote, content, quote, rest);
    }
    QuoteEndOfName(s, 1, content, style, t.digit);
  }

  lemma BracketedIsScanned(style: Names.QuoteStyle, content: Text, rest: Text, t: Tables)
    requires IsTables(t) && Names.ValidName(content, style, t.digit)
    ensures ScanSegment(Bracketed(style, content).Text() + rest, t) == Ok((Member(Names.Unescaped(content)), rest))
  {
    var s := Bracketed(style, content).Text() + rest;
    WrappedTail(BRACKET_OPEN, QuotedText(style, content), BRACKET_CLOSE, rest);
    QuotedIsScanned(style, content, [BRACKET_CLOSE] + rest, t);
  }

  lemma IndexOfFirst(a: Text, c: CodeUnit, b: Text)
    requires c !in a
    ensures IndexOf(a + ([c] + b), c) == Some(|a|)
  {
    var s := a + ([c] + b);
    assert s[|a|] == c;
    assert forall i :: 0 <= i < |a| ==> s[i] == a[i];
  }

  lemma IndexedIsScanned(digits: Text, rest: Text, t: Tables)
    requires IsIndexText(digits, t)
    ensures ScanSegment(Indexed(digits).Text() + rest, t) == Ok((Element(IndexContent(digits, t).value), rest))
  {
    var s := Indexed(digits).Text() + rest;
    WrappedTail(BRACKET_OPEN, digits, BRACKET_CLOSE, rest);
    IndexOfFirst(digits, BRACKET_CLOSE, rest);
    assert s[1] == digits[0];
    assert ScanIndex(s[1..], t) == Ok((IndexContent(digits, t).value, [BRACKET_CLOSE] + rest));
  }

  lemma SegmentIsScanned(segment: SegmentText, rest: Text, t: Tables)
    requires IsTables(t) && segment.Valid(t) && EndsName(rest)
    ensures ScanSegment(segment.Text() + rest, t) == Ok((segment.Value(t), rest))
  {
    match segment
    case Shorthand(name) => ShorthandIsScanned(name, rest, t);
    case Bracketed(style, content) => BracketedIsScanned(style, content, rest, t);
    case Indexed(digits) => IndexedIsScanned(digits, rest, t);
  }

  lemma {:induction false} BlanksAreSkipped(blanks: Text, rest: Text)
    requires AllBlank(blanks) && rest != [] && !IsBlank(rest[0])
    ensures SkipBlanks(blanks + rest) == rest
  {
    if blanks == [] {
      assert blanks + rest == rest;
    } else {
      assert (blanks + rest)[1..] == blanks[1..] + rest;
      BlanksAreSkipped(blanks[1..], rest);
    }
  }

  lemma PartsEndNames(parts: seq<Part>, t: Tables)
    requires ValidParts(parts, t)
    ensures EndsName(PartsText(parts))
  {
  }

  /** Every text of the grammar parses to its segments. */
  lemma {:induction false} PartsAreParsed(parts: seq<Part>, t: Tables)
    requires IsTables(t) && ValidParts(parts, t)
    ensures ParseSegments(PartsText(parts), t) == Ok(Values(parts, t))
    decreases parts
  {
    if parts != [] {
      var segment, rest := parts[0].segment, PartsText(parts[1..]);
      PartsEndNames(parts[1..], t);
      BlanksAreSkipped(parts[0].blanks, segment.Text() + rest);
      SegmentIsScanned(segment, rest, t);
      PartsAreParsed(parts[1..], t);
    }
  }

  // ---------------------------------------------------------------------
  // Only texts of the grammar are parsed
  // ---------------------------------------------------------------------

  lemma {:induction false} NameLengthOfName(s: Text)
    ensures NameLength(s[..NameLength(s)]) == NameLength(s)
  {
    if s != [] && IsNameChar(s[0]) {
      NameLengthOfName(s[1..]);
      assert s[..NameLength(s)][1..] == s[1..][..NameLength(s[1..])];
    }
  }

  lemma ScannedShorthand(s: Text, t: Tables) returns (segment: SegmentText)
    requires s != [] && s[0] == DOT && ScanSegment(s, t).Ok?
    ensures segment.Valid(t) && ScanSegment(s, t).value.0 == segment.Value(t)
    ensures s == segment.Text() + ScanSegment(s, t).value.1
  {
    var n := NameLength(s[1..]);
    NameLengthOfName(s[1..]);
    assert s[1..][..n] == s[1..1 + n];
    NameUnitsAreCounted(s[1..1 + n]);
    segment := Shorthand(s[1..1 + n]);
  }

  lemma ScannedQuoted(s: Text, t: Tables) returns (segment: SegmentText)
    requires |s| > 1 && s[0] == BRACKET_OPEN && IsQuote(s[1]) && ScanBracket(s, t).Ok?
    ensures segment.Valid(t) && ScanBracket(s, t).value.0 == segment.Value(t)
    ensures s == segment.Text() + ScanBracket(s, t).value.1
  {
    var u := s[1..];
    var end := QuoteEnd(u, 1, u[0]).value;
    segment := Bracketed(StyleOf(u[0]), u[1..end]);
    SplitQuoted(u, end);
    var rest := u[end + 1..];
    assert u == QuotedText(StyleOf(u[0]), u[1..end]) + rest;
    SplitAt(rest, 0);
    assert rest == [BRACKET_CLOSE] + rest[1..];
    WrappedTail(BRACKET_OPEN, QuotedText(StyleOf(u[0]), u[1..end]), BRACKET_CLOSE, rest[1..]);
    assert s == [BRACKET_OPEN] + u;
  }

  lemma ScannedIndex(s: Text, t: Tables) returns (segment: SegmentText)
    requires |s| > 1 && s[0] == BRACKET_OPEN && !IsQuote(s[1]) && ScanBracket(s, t).Ok?
    ensures segment.Valid(t) && ScanBracket(s, t).value.0 == segment.Value(t)
    ensures s == segment.Text() + ScanBracket(s, t).value.1
  {
    var u := s[1..];
    var close := IndexOf(u, BRACKET_CLOSE).value;
    segment := Indexed(u[..close]);
    SplitAt(u, close);
    assert u[close..][1..] == u[close + 1..];
    WrappedTail(BRACKET_OPEN, u[..close], BRACKET_CLOSE, u[close + 1..]);
    assert s == [BRACKET_OPEN] + u;
  }

  lemma ScannedBracket(s: Text, t: Tables) returns (segment: SegmentText)
    requires s != [] && s[0] == BRACKET_OPEN && ScanSegment(s, t).Ok?
    ensures segment.Valid(t) && ScanSegment(s, t).value.0 == segment.Value(t)
    ensures s == segment.Text() + ScanSegment(s, t).value.1
  {
    if IsQuote(s[1]) {
      segment := ScannedQuoted(s, t);
    } else {
      segment := ScannedIndex(s, t);
    }
  }

  lemma {:induction false} SkippedBlanks(s: Text) returns (blanks: Text)
    ensures AllBlank(blanks) && s == blanks + SkipBlanks(s)
  {
    if s != [] && IsBlank(s[0]) {
      var more := SkippedBlanks(s[1..]);
      blanks := [s[0]] + more;
    } else {
      blanks := [];
    }
  }

  /** Whatever parses is a text of the grammar, with the segments it stands for. */
  lemma {:induction false} ParsedHasParts(s: Text, t: Tables) returns (parts: seq<Part>)
    requires ParseSegments(s, t).Ok?
    ensures ValidParts(parts, t) && s == PartsText(parts) && ParseSegments(s, t) == Ok(Values(parts, t))
    decreases |s|
  {
    if s == [] {
      parts := [];
    } else {
      var blanks := SkippedBlanks(s);
      var u := SkipBlanks(s);
      var segment;
      if u[0] == DOT {
        segment := ScannedShorthand(u, t);
      } else {
        segment := ScannedBracket(u, t);
      }
      var more := ParsedHasParts(ScanSegment(u, t).value.1, t);
      parts := [Part(blanks, segment)] + more;
      assert parts[1..] == more;
    }
  }

  // ---------------------------------------------------------------------
  // The parser and the grammar
  // ---------------------------------------------------------------------

  predicate Spells(s: Text, parts: seq<Part>, segments: seq<Segment>, t: Tables) {
    ValidParts(parts, t) && s == ['@' as int] + PartsText(parts) && Values(parts, t) == segments
  }

  /** The parser accepts exactly the grammar, after trimming, and yields what the text spells. */
  lemma ParseIsGrammar(text: Text, segments: seq<Segment>, t: Tables)
    requires IsTables(t)
    ensures Parsed(text, t) == Ok(segments) <==> exists parts :: Spells(Trimmed(text, t.space), parts, segments, t)
  {
    var s := Trimmed(text, t.space);
    if Parsed(text, t) == Ok(segments) {
      var parts := ParsedHasParts(s[1..], t);
      assert s == [AT] + s[1..];
      assert Spells(s, parts, segments, t);
    }
    if parts :| Spells(s, parts, segments, t) {
      PartsAreParsed(parts, t);
      assert s[1..] == PartsText(parts);
    }
  }

  // ---------------------------------------------------------------------
  // Why a text is refused
  // ---------------------------------------------------------------------

  /** The quote that opens `s` is closed at `end`: only plain units and escapes are between the two. */
  ghost predicate QuotedUpTo(s: Text, end: nat) {
    && 1 <= end < |s| && s[end] == s[0]
    && exists body :: Nested.ValidBody(s[0], body) && Nested.BodyText(body) == s[1..end]
  }

  lemma {:induction false} BodyBefore(s: Text, i: nat, quote: CodeUnit) returns (body: seq<Nested.QuotedUnit>)
    requires i <= |s| && QuoteEnd(s, i, quote).Some?
    ensures Nested.ValidBody(quote, body) && Nested.BodyText(body) == s[i..QuoteEnd(s, i, quote).value]
    decreases |s| - i
  {
    body := [];
    if s[i] != quote {
      var end := QuoteEnd(s, i, quote).value;
      if s[i] == Names.BACKSLASH {
        var more := BodyBefore(s, i + 2, quote);
        body := [Nested.Escape(s[i + 1])] + more;
        assert s[i..end] == [0x5C, s[i + 1]] + s[i + 2..end];
      } else {
        var more := BodyBefore(s, i + 1, quote);
        body := [Nested.Raw(s[i])] + more;
        assert s[i..end] == [s[i]] + s[i + 1..end];
      }
    }
  }

  lemma {:induction false} BehindBody(s: Text, i: nat, quote: CodeUnit, body: seq<Nested.QuotedUnit>)
    requires quote != Names.BACKSLASH && Nested.ValidBody(quote, body)
    requires i + |Nested.BodyText(body)| < |s| && s[i..i + |Nested.BodyText(body)|] == Nested.BodyText(body)
    requires s[i + |Nested.BodyText(body)|] == quote
    ensures QuoteEnd(s, i, quote) == Some(i + |Nested.BodyText(body)|)
    decreases body
  {
    if body != [] {
      var text, rest := Nested.BodyText(body), Nested.BodyText(body[1..]);
      var n := |text| - |rest|;
      assert s[i] == text[0] && text[n..] == rest;
      assert s[i + n..i + n + |rest|] == s[i..i + |text|][n..];
      BehindBody(s, i + n, quote, body[1..]);
    }
  }

  lemma QuoteEndIsClosing(s: Text, end: nat)
    requires s != [] && IsQuote(s[0])
    ensures QuoteEnd(s, 1, s[0]) == Some(end) <==> QuotedUpTo(s, end)
  {
    if QuoteEnd(s, 1, s[0]) == Some(end) {
      var body := BodyBefore(s, 1, s[0]);
    }
    if QuotedUpTo(s, end) {
      var body :| Nested.ValidBody(s[0], body) && Nested.BodyText(body) == s[1..end];
      BehindBody(s, 1, s[0], body);
    }
  }

  predicate IsNameAt(s: Text, end: nat, t: Tables)
    requires 1 <= end < |s|
  {
    Names.ValidName(s[1..end], if s[0] == 0x27 then Names.SingleQuote else Names.DoubleQuote, t.digit)
  }

  /** What is wrong with a bracket from its opening quote on. */
  ghost predicate NameRefused(s: Text, e: QueryError, t: Tables) {
    match e
    case InvalidQuotedName => exists end: nat :: QuotedUpTo(s, end) && !IsNameAt(s, end, t)
    case NotSingular =>
      exists end: nat :: QuotedUpTo(s, end) && IsNameAt(s, end, t) && end + 1 < |s| && s[end + 1] == ',' as int
    case UnterminatedBracket =>
      || (forall end: nat :: !QuotedUpTo(s, end))
      || (exists end: nat :: QuotedUpTo(s, end) && IsNameAt(s, end, t)
                        && (end + 1 == |s| || (s[end + 1] != ',' as int && s[end + 1] != ']' as int)))
    case _ => false
  }

  lemma NameIsRefused(s: Text, e: QueryError, t: Tables)
    requires s != [] && s[0] == BRACKET_OPEN && |s| > 1 && IsQuote(s[1])
    ensures ScanBracket(s, t) == Err(e) <==> NameRefused(s[1..], e, t)
  {
    var u := s[1..];
    forall end: nat
      ensures QuotedUpTo(u, end) <==> QuoteEnd(u, 1, u[0]) == Some(end)
    {
      QuoteEndIsClosing(u, end);
    }
    if QuoteEnd(u, 1, u[0]).Some? {
      var end := QuoteEnd(u, 1, u[0]).value;
      assert QuotedUpTo(u, end);
      assert end + 1 < |u| ==> u[end + 1..][0] == u[end + 1];
    }
  }

  predicate ClosesAt(s: Text, close: nat) {
    close < |s| && s[close] == ']' as int && forall i :: 0 <= i < close ==> s[i] != ']' as int
  }

  predicate ManyMeant(s: Text) {
    ':' as int in s || ',' as int in s || '*' as int in s || '?' as int in s
  }

  /** What is wrong with a bracket behind its opening. */
  ghost predicate IndexRefused(s: Text, e: QueryError, t: Tables) {
    match e
    case InvalidIndex =>
      exists close: nat :: ClosesAt(s, close) && !ManyMeant(s[..close]) && !IsIndexText(s[..close], t)
    case NotSingular => exists close: nat :: ClosesAt(s, close) && ManyMeant(s[..close])
    case UnterminatedBracket => ']' as int !in s
    case _ => false
  }

  lemma IndexIsRefused(s: Text, e: QueryError, t: Tables)
    requires s != [] && s[0] == BRACKET_OPEN && (|s| > 1 ==> !IsQuote(s[1]))
    ensures ScanBracket(s, t) == Err(e) <==> IndexRefused(s[1..], e, t)
  {
    var u := s[1..];
    match IndexOf(u, BRACKET_CLOSE)
    case None =>
    case Some(close) =>
      assert ClosesAt(u, close);
      assert close > 0 ==> u[..close][0] == s[1];
  }

  /** What is wrong with the text where a segment is expected. */
  ghost predicate SegmentRefused(s: Text, e: QueryError, t: Tables) {
    if s == [] || (s[0] != '.' as int && s[0] != '[' as int) then e == UnexpectedCharacter
    else if s[0] == '.' as int then
      if |s| > 1 && (s[1] == '.' as int || s[1] == '*' as int) then e == NotSingular
      else (|s| == 1 || IsAsciiDigit(s[1]) || !AllNameUnits([s[1]])) && e == InvalidMemberName
    else if |s| > 1 && Nested.IsQuoteMark(s[1]) then NameRefused(s[1..], e, t)
    else IndexRefused(s[1..], e, t)
  }

  lemma SegmentIsRefused(s: Text, e: QueryError, t: Tables)
    requires s != []
    ensures ScanSegment(s, t) == Err(e) <==> SegmentRefused(s, e, t)
  {
    if s[0] == BRACKET_OPEN && |s| > 1 && IsQuote(s[1]) {
      NameIsRefused(s, e, t);
    } else if s[0] == BRACKET_OPEN {
      IndexIsRefused(s, e, t);
    } else if |s| > 1 {
      assert AllNameUnits([s[1]]) <==> IsNameChar(s[1]) by {
        assert [s[1]][0] == s[1];
      }
    }
  }

  /** Segments up to a place where none begins. */
  ghost predicate StopsAt(s: Text, parts: seq<Part>, blanks: Text, rest: Text, e: QueryError, t: Tables) {
    && ValidParts(parts, t) && AllBlank(blanks) && s == PartsText(parts) + (blanks + rest)
    && (rest != [] ==> !AllBlank(rest[..1])) && SegmentRefused(rest, e, t)
  }

  lemma {:induction false} StopsSomewhere(s: Text, t: Tables) returns (parts: seq<Part>, blanks: Text, rest: Text)
    requires ParseSegments(s, t).Err?
    ensures StopsAt(s, parts, blanks, rest, ParseSegments(s, t).error, t)
    decreases |s|
  {
    var e := ParseSegments(s, t).error;
    var before := SkippedBlanks(s);
    var u := SkipBlanks(s);
    SkippedAll(s);
    if u == [] || ScanSegment(u, t).Err? {
      if u != [] {
        SegmentIsRefused(u, e, t);
      }
      parts, blanks, rest := [], before, u;
      assert s == [] + (blanks + rest);
    } else {
      var segment;
      if u[0] == DOT {
        segment := ScannedShorthand(u, t);
      } else {
        segment := ScannedBracket(u, t);
      }
      var more;
      more, blanks, rest := StopsSomewhere(ScanSegment(u, t).value.1, t);
      parts := [Part(before, segment)] + more;
      StopsLater(ScanSegment(u, t).value.1, Part(before, segment), more, blanks, rest, e, t);
    }
  }

  lemma StopsLater(u: Text, part: Part, more: seq<Part>, blanks: Text, rest: Text, e: QueryError, t: Tables)
    requires AllBlank(part.blanks) && part.segment.Valid(t) && StopsAt(u, more, blanks, rest, e, t)
    ensures StopsAt(part.blanks + (part.segment.Text() + u), [part] + more, blanks, rest, e, t)
  {
    OneMorePart(part, more, t);
    InFront(part.blanks, part.segment.Text(), PartsText(more), blanks + rest);
  }

  lemma OneMorePart(part: Part, more: seq<Part>, t: Tables)
    requires AllBlank(part.blanks) && part.segment.Valid(t) && ValidParts(more, t)
    ensures ValidParts([part] + more, t)
    ensures PartsText([part] + more) == part.blanks + (part.segment.Text() + PartsText(more))
  {
    assert ([part] + more)[1..] == more;
  }

  lemma InFront(a: Text, b: Text, c: Text, d: Text)
    ensures a + (b + (c + d)) == (a + (b + c)) + d
  {
  }

  lemma {:induction false} SkippedAll(s: Text)
    ensures SkipBlanks(s) != [] ==> !AllBlank(SkipBlanks(s)[..1])
  {
    if s != [] && IsBlank(s[0]) {
      SkippedAll(s[1..]);
    } else if s != [] {
      assert s[..1][0] == s[0];
    }
  }

  /** Every error says what is wrong where the grammar's segments end; a query that is not relative begins otherwise. */
  lemma ErrorSaysWhy(text: Text, t: Tables) returns (parts: seq<Part>, blanks: Text, rest: Text)
    requires Parsed(text, t).Err?
    ensures var s, e := Trimmed(text, t.space), Parsed(text, t).error;
            if s == [] || s[0] != '@' as int then e == NotRelative else StopsAt(s[1..], parts, blanks, rest, e, t)
  {
    var s := Trimmed(text, t.space);
    parts, blanks, rest := [], [], [];
    if s != [] && s[0] == AT {
      parts, blanks, rest := StopsSomewhere(s[1..], t);
    }
  }

  // ---------------------------------------------------------------------
  // Index segments and integer literals
  // ---------------------------------------------------------------------

  predicate SpaceAtEnd(s: Text, space: CodeUnit -> bool) {
    s != [] && (space(s[0]) || space(s[|s| - 1]))
  }

  lemma {:induction false} TrimmedIsSelf(s: Text, space: CodeUnit -> bool)
    ensures Trimmed(s, space) == s <==> !SpaceAtEnd(s, space)
  {
    if s != [] && space(s[0]) {
      TrimStartShortens(s, space);
      TrimEndKeepsStart(TrimStart(s, space), space);
    } else if s != [] && space(s[|s| - 1]) {
      TrimEndKeepsStart(s[..|s| - 1], space);
    }
  }

  lemma {:induction false} TrimStartShortens(s: Text, space: CodeUnit -> bool)
    requires s != [] && space(s[0])
    ensures |TrimStart(s, space)| < |s|
  {
    if |s| > 1 && space(s[1]) {
      TrimStartShortens(s[1..], space);
    }
  }

  lemma LiteralHasNoSpace(s: Text, t: Tables)
    requires IsTables(t) && IndexLiteral(s).Some?
    ensures !SpaceAtEnd(s, t.space) && !IsBlank(s[0]) && !IsBlank(s[|s| - 1])
  {
  }

  /**
   * Every integer literal is an index segment and is read as its value. The
   * texts accepted beyond the literals are those with white space at an end.
   */
  lemma IndexIsLiteral(s: Text, t: Tables)
    requires IsTables(t)
    ensures IndexLiteral(s).Some? ==> IndexContent(s, t) == IndexLiteral(s)
    ensures IndexContent(s, t).Some? ==> (IndexLiteral(s).Some? <==> !SpaceAtEnd(s, t.space))
  {
    TrimmedIsSelf(s, t.space);
    if IndexLiteral(s).Some? {
      LiteralHasNoSpace(s, t);
    }
  }

  /** An integer as section 2.3.3.1 of RFC 9535 spells it. */
  function Spelled(index: int): Text {
    if index < 0 then Ascii("-") + Decimal.Digits(-index) else Decimal.Digits(index)
  }

  /** The literals are the spelled integers within the exact range of a double, and "-0" is none of them. */
  lemma LiteralIsSpelled(s: Text, index: int)
    ensures IndexLiteral(s) == Some(index) <==>
              s == Spelled(index) && -0x20_0000_0000_0000 < index < 0x20_0000_0000_0000
  {
    assert Ascii("-") == [MINUS];
    if IndexLiteral(s) == Some(index) {
      SpellsItsValue(s);
    }
    if s == Spelled(index) {
      Decimal.ValueOfDigits(if index < 0 then -index else index);
      assert index < 0 ==> s[1..] == Decimal.Digits(-index);
    }
  }

  lemma SpellsItsValue(s: Text)
    requires IndexLiteral(s).Some?
    ensures var index := IndexLiteral(s).value;
            s == Spelled(index) && -0x20_0000_0000_0000 < index < 0x20_0000_0000_0000
  {
    assert Ascii("-") == [MINUS] && Decimal.ValueOf([]) == 0;
    if s != [Decimal.ZERO] && s[0] == MINUS {
      Decimal.DigitsOfValue(s[1..]);
      Decimal.ValueOfDigits(0);
      assert s == [MINUS] + s[1..];
    } else {
      Decimal.DigitsOfValue(s);
    }
  }

  predicate AllSpace(s: Text, space: CodeUnit -> bool) {
    forall i :: 0 <= i < |s| ==> space(s[i])
  }

  lemma {:induction false} EndOff(s: Text, space: CodeUnit -> bool) returns (right: Text)
    ensures s == TrimEnd(s, space) + right && AllSpace(right, space)
    ensures TrimEnd(s, space) != [] ==> TrimEnd(s, space)[0] == s[0]
    decreases |s|
  {
    right := [];
    if s != [] && space(s[|s| - 1]) {
      var more := EndOff(s[..|s| - 1], space);
      right := more + [s[|s| - 1]];
      assert s == s[..|s| - 1] + [s[|s| - 1]];
    }
  }

  lemma {:induction false} StartOff(s: Text, space: CodeUnit -> bool) returns (left: Text)
    ensures s == left + TrimStart(s, space) && AllSpace(left, space)
    ensures TrimStart(s, space) != [] ==> !space(TrimStart(s, space)[0])
  {
    left := [];
    if s != [] && space(s[0]) {
      var more := StartOff(s[1..], space);
      left := [s[0]] + more;
    }
  }

  /** Trimming takes all white space off both ends, and nothing else. */
  lemma TrimmedIsCore(s: Text, space: CodeUnit -> bool) returns (left: Text, right: Text)
    ensures s == left + (Trimmed(s, space) + right)
    ensures AllSpace(left, space) && AllSpace(right, space) && !SpaceAtEnd(Trimmed(s, space), space)
  {
    left := StartOff(s, space);
    right := EndOff(TrimStart(s, space), space);
    TrimEndKeepsStart(TrimStart(s, space), space);
  }

  /** What a bracket may hold as an index: a spelled integer in white space, none of it blank at the ends. */
  lemma IndexTextIsSpelled(s: Text, index: int, t: Tables)
    requires IsTables(t)
    ensures IsIndexText(s, t) && IndexContent(s, t) == Some(index) <==>
              && s != [] && !AllBlank(s[..1]) && !AllBlank(s[|s| - 1..])
              && Trimmed(s, t.space) == Spelled(index) && -0x20_0000_0000_0000 < index < 0x20_0000_0000_0000
  {
    LiteralIsSpelled(Trimmed(s, t.space), index);
    if s != [] {
      assert s[..1] == [s[0]] && s[|s| - 1..] == [s[|s| - 1]];
      if Trimmed(s, t.space) == Spelled(index) {
        SpacedUnits(s, index, t.space);
        assert s[0] in s;
      }
    }
  }

  lemma SpelledUnits(index: int)
    ensures forall c :: c in Spelled(index) ==> c == '-' as int || IsAsciiDigit(c)
  {
  }

  lemma SpacedUnits(s: Text, index: int, space: CodeUnit -> bool)
    requires Trimmed(s, space) == Spelled(index)
    ensures forall c :: c in s ==> space(c) || c == '-' as int || IsAsciiDigit(c)
  {
    SpelledUnits(index);
    var left, right := TrimmedIsCore(s, space);
  }

  const NO_BREAK_SPACE: CodeUnit := 0xA0

  /** White space as QChar::isSpace has it up to U+00A0, and no digits beyond ASCII. */
  function SampleTables(): Tables {
    Tables(u => if 0x30 <= u <= 0x39 then Some(u - 0x30) else None,
           u => 0x09 <= u <= 0x0D || u == 0x20 || u == 0x85 || u == NO_BREAK_SPACE)
  }

  /** "[ 1]" with a no-break space is accepted as index 1. */
  lemma SpacedIndexIsAccepted()
    ensures IsTables(SampleTables())
    ensures ScanSegment(Ascii("[") + [NO_BREAK_SPACE] + Ascii("1]"), SampleTables()) == Ok((Element(1), []))
    ensures IndexLiteral([NO_BREAK_SPACE, 0x31]).None?
  {
    var s, t := [NO_BREAK_SPACE, 0x31], SampleTables();
    assert s[1..] == [0x31];
    assert t.space(s[0]) && !t.space(0x31) && [0x31][..0] == [];
    assert TrimStart([0x31], t.space) == [0x31] && TrimEnd([0x31], t.space) == [0x31];
    assert TrimStart(s, t.space) == TrimStart(s[1..], t.space);
    assert Trimmed(s, t.space) == [0x31];
    assert Decimal.ValueOf([0x31]) == 1;
    assert IsIndexText(s, t);
    assert Indexed(s).Text() + [] == Ascii("[") + [NO_BREAK_SPACE] + Ascii("1]");
    IndexedIsScanned(s, [], t);
  }

  // ---------------------------------------------------------------------
  // Trimming cuts into names
  // ---------------------------------------------------------------------

  lemma {:induction false} PartsThenParsed(parts: seq<Part>, rest: Text, t: Tables)
    requires IsTables(t) && ValidParts(parts, t) && EndsName(rest)
    ensures ParseSegments(PartsText(parts) + rest, t) == After(Values(parts, t), ParseSegments(rest, t))
    decreases parts
  {
    var tail := ParseSegments(rest, t);
    if parts == [] {
      assert PartsText(parts) + rest == rest;
      AfterAfter([], Member([]), tail);
    } else {
      var part, more := parts[0], PartsText(parts[1..]) + rest;
      var s := part.blanks + (part.segment.Text() + more);
      assert PartsText(parts) + rest == s;
      PartsEndNames(parts[1..], t);
      assert EndsName(more);
      BlanksAreSkipped(part.blanks, part.segment.Text() + more);
      SegmentIsScanned(part.segment, more, t);
      PartsThenParsed(parts[1..], rest, t);
      assert ParseSegments(s, t) == After([part.segment.Value(t)], ParseSegments(more, t));
      AfterAfter2([part.segment.Value(t)], Values(parts[1..], t), tail);
    }
  }

  lemma AfterAfter2(a: seq<Segment>, b: seq<Segment>, r: Result<seq<Segment>, QueryError>)
    ensures After(a, After(b, r)) == After(a + b, r)
  {
    if r.Ok? {
      assert a + (b + r.value) == (a + b) + r.value;
    }
  }

  lemma {:induction false} TrimEndOfConcat(a: Text, b: Text, space: CodeUnit -> bool)
    requires a != [] && !space(a[|a| - 1])
    ensures TrimEnd(a + b, space) == a + TrimEnd(b, space)
    decreases |b|
  {
    var s := a + b;
    if b == [] {
      assert s == a && a + [] == a;
    } else if space(b[|b| - 1]) {
      assert s[..|s| - 1] == a + b[..|b| - 1];
      TrimEndOfConcat(a, b[..|b| - 1], space);
    }
  }

  function LastName(blanks: Text, name: Text): Text {
    blanks + ([DOT] + name)
  }

  lemma LastNameIsParsed(blanks: Text, name: Text, t: Tables)
    requires AllBlank(blanks) && AllNameUnits(name) && (name != [] ==> !IsAsciiDigit(name[0]))
    ensures ParseSegments(LastName(blanks, name), t) ==
            if name == [] then Err(InvalidMemberName) else Ok([Member(name)])
  {
    BlanksAreSkipped(blanks, [DOT] + name);
    if name != [] {
      assert Shorthand(name).Text() + [] == [DOT] + name;
      ShorthandIsScanned(name, [], t);
      assert ParseSegments([], t) == Ok([]) && [Member(name)] + [] == [Member(name)];
    }
  }

  /** A query whose text ends in ".name". */
  function EndingInName(parts: seq<Part>, blanks: Text, name: Text): Text {
    [AT] + (PartsText(parts) + LastName(blanks, name))
  }

  lemma EndingInNameIsParsed(parts: seq<Part>, blanks: Text, name: Text, t: Tables)
    requires IsTables(t) && ValidParts(parts, t) && AllBlank(blanks) && AllNameUnits(name)
    requires name != [] ==> !IsAsciiDigit(name[0])
    ensures ParseSegments(PartsText(parts) + LastName(blanks, name), t) ==
            if name == [] then Err(InvalidMemberName) else Ok(Values(parts, t) + [Member(name)])
  {
    var last := LastName(blanks, name);
    assert EndsName(last);
    PartsThenParsed(parts, last, t);
    LastNameIsParsed(blanks, name, t);
  }

  lemma TrimmedEnding(parts: seq<Part>, blanks: Text, name: Text, t: Tables)
    requires IsTables(t)
    ensures Trimmed(EndingInName(parts, blanks, name), t.space) == EndingInName(parts, blanks, TrimEnd(name, t.space))
  {
    var before := [AT] + (PartsText(parts) + (blanks + [DOT]));
    var kept := TrimEnd(name, t.space);
    Regroup([AT], PartsText(parts), blanks, [DOT], name);
    Regroup([AT], PartsText(parts), blanks, [DOT], kept);
    TrimEndOfConcat(before, name, t.space);
  }

  /**
   * White space beyond ASCII may end a member name, but is trimmed from the
   * end of the query: a query ending in ".name" is read as written exactly
   * when the name does not end in white space.
   */
  lemma TrailingSpaceIsLost(parts: seq<Part>, blanks: Text, name: Text, t: Tables)
    requires IsTables(t) && ValidParts(parts, t) && AllBlank(blanks) && Shorthand(name).Valid(t)
    ensures Parsed(EndingInName(parts, blanks, name), t) == Ok(Values(parts, t) + [Member(name)]) <==>
            !t.space(name[|name| - 1])
  {
    var kept, values := TrimEnd(name, t.space), Values(parts, t);
    TrimEndKeepsStart(name, t.space);
    assert name[..|kept|] == kept;
    TrimmedEnding(parts, blanks, name, t);
    EndingInNameIsParsed(parts, blanks, kept, t);
    assert EndingInName(parts, blanks, kept)[1..] == PartsText(parts) + LastName(blanks, kept);
    LastIsKept(values, kept, name);
  }

  lemma LastIsKept(values: seq<Segment>, a: Text, b: Text)
    ensures values + [Member(a)] == values + [Member(b)] ==> a == b
  {
    assert (values + [Member(a)])[|values|] == Member(a) && (values + [Member(b)])[|values|] == Member(b);
  }

  /** "@.a" followed by a no-break space is read as "@.a", although the grammar has the space in the name. */
  lemma NoBreakSpaceIsLost()
    ensures var name: Text := [0x61, NO_BREAK_SPACE];
            && Shorthand(name).Valid(SampleTables())
            && Parsed(Ascii("@.") + name, SampleTables()) == Ok([Member(Ascii("a"))])
  {
    var name: Text, kept: Text, t := [0x61, NO_BREAK_SPACE], [0x61], SampleTables();
    assert Ascii("@.") == [AT, DOT] && Ascii("a") == kept;
    assert name[1..] == [NO_BREAK_SPACE] && name[..1] == kept && [NO_BREAK_SPACE][1..] == [] && kept[1..] == [];
    assert TrimEnd(name, t.space) == kept;
    assert EndingInName([], [], name) == [AT, DOT] + name && EndingInName([], [], kept)[1..] == [DOT] + kept;
    TrimmedEnding([], [], name, t);
    EndingInNameIsParsed([], [], kept, t);
    assert PartsText([]) + LastName([], kept) == [DOT] + kept;
    assert [] + [Member(kept)] == [Member(kept)];
  }
}
