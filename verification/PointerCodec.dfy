/** The textual form of JSON Pointers (sections 3 and 4 of RFC 6901): parser, printer, and their laws. */
module PointerCodec {
  import opened JsonValue
  import opened PointerEvaluation
  import opened Decimal

  const SLASH: CodeUnit := 0x2F
  const TILDE: CodeUnit := 0x7E
  const DIGIT_0: CodeUnit := 0x30
  const DIGIT_1: CodeUnit := 0x31
  const PLUS: CodeUnit := 0x2B
  const HYPHEN: CodeUnit := 0x2D
  const INT64_MAX: int := 0x7FFF_FFFF_FFFF_FFFF

  datatype ParseError = InvalidEscapeSequence | MissingLeadingSlash

  // ---------------------------------------------------------------------
  // Escaping
  // ---------------------------------------------------------------------

  function EscapeUnit(u: CodeUnit): Text {
    if u == TILDE then [TILDE, DIGIT_0]
    else if u == SLASH then [TILDE, DIGIT_1]
    else [u]
  }

  function Escape(key: Text): Text {
    if key == [] then [] else EscapeUnit(key[0]) + Escape(key[1..])
  }

  function Unescape(s: Text): Text {
    if s == [] then []
    else if s[0] == TILDE && |s| > 1 && s[1] == DIGIT_0 then [TILDE] + Unescape(s[2..])
    else if s[0] == TILDE && |s| > 1 && s[1] == DIGIT_1 then [SLASH] + Unescape(s[2..])
    else [s[0]] + Unescape(s[1..])
  }

  /** Every '~' is followed by '0' or '1'. */
  predicate WellEscaped(s: Text) {
    if s == [] then true
    else if s[0] == TILDE then |s| > 1 && (s[1] == DIGIT_0 || s[1] == DIGIT_1) && WellEscaped(s[2..])
    else WellEscaped(s[1..])
  }

  lemma {:induction false} UnescapeOfEscape(key: Text)
    ensures Unescape(Escape(key)) == key
    ensures WellEscaped(Escape(key))
    ensures SLASH !in Escape(key)
  {
    if key != [] {
      UnescapeOfEscape(key[1..]);
      var first := EscapeUnit(key[0]);
      assert Escape(key)[|first|..] == Escape(key[1..]);
      assert key == [key[0]] + key[1..];
    }
  }

  lemma {:induction false} EscapeOfUnescape(s: Text)
    requires WellEscaped(s) && SLASH !in s
    ensures Escape(Unescape(s)) == s
  {
    if s != [] {
      var n := if s[0] == TILDE then 2 else 1;
      EscapeOfUnescape(s[n..]);
      var u := Unescape(s);
      assert u[1..] == Unescape(s[n..]);
      assert s == s[..n] + s[n..];
    }
  }

  // ---------------------------------------------------------------------
  // Splitting at '/'
  // ---------------------------------------------------------------------

  function Split(s: Text): (segments: seq<Text>)
    ensures segments != []
  {
    if s == [] then [[]]
    else if s[0] == SLASH then [[]] + Split(s[1..])
    else var rest := Split(s[1..]); [[s[0]] + rest[0]] + rest[1..]
  }

  lemma {:induction false} SplitConcat(a: Text, b: Text)
    ensures Split(a + [SLASH] + b) == Split(a) + Split(b)
  {
    var s := a + [SLASH] + b;
    if a == [] {
      assert s[0] == SLASH && s[1..] == b;
    } else {
      assert s[0] == a[0] && s[1..] == a[1..] + [SLASH] + b;
      SplitConcat(a[1..], b);
    }
  }

  lemma {:induction false} SplitPlain(s: Text)
    requires SLASH !in s
    ensures Split(s) == [s]
  {
    if s != [] {
      SplitPlain(s[1..]);
      assert s == [s[0]] + s[1..];
    }
  }

  /** Slash-separated text, each segment preceded by its slash. */
  function Join(segments: seq<Text>): Text {
    if segments == [] then [] else [SLASH] + segments[0] + Join(segments[1..])
  }

  lemma JoinCons(head: Text, tail: seq<Text>)
    ensures Join([head] + tail) == [SLASH] + (head + Join(tail))
  {
    assert ([head] + tail)[1..] == tail;
    assert [SLASH] + head + Join(tail) == [SLASH] + (head + Join(tail));
  }

  lemma SlashCancels(a: Text, b: Text)
    requires [SLASH] + a == [SLASH] + b
    ensures a == b
  {
    assert ([SLASH] + a)[1..] == a && ([SLASH] + b)[1..] == b;
  }

  lemma SplitSegmentsPlain(s: Text)
    ensures forall i :: 0 <= i < |Split(s)| ==> SLASH !in Split(s)[i]
  {
    if s != [] {
      SplitSegmentsPlain(s[1..]);
    }
  }

  lemma {:induction false} JoinOfSplit(s: Text)
    ensures Join(Split(s)) == [SLASH] + s
  {
    if s == [] {
      assert Join([[]]) == [SLASH] + [] + Join([]);
    } else {
      var rest := Split(s[1..]);
      JoinOfSplit(s[1..]);
      assert s == [s[0]] + s[1..];
      if s[0] == SLASH {
        JoinCons([], rest);
        assert [] + Join(rest) == Join(rest);
      } else {
        var body := rest[0] + Join(rest[1..]);
        assert rest == [rest[0]] + rest[1..];
        JoinCons(rest[0], rest[1..]);
        SlashCancels(body, s[1..]);
        JoinCons([s[0]] + rest[0], rest[1..]);
        assert [s[0]] + rest[0] + Join(rest[1..]) == [s[0]] + body;
      }
    }
  }

  predicate AllWellEscaped(segments: seq<Text>) {
    forall i :: 0 <= i < |segments| ==> WellEscaped(segments[i])
  }

  lemma AllWellEscapedCons(head: Text, tail: seq<Text>)
    ensures AllWellEscaped([head] + tail) <==> WellEscaped(head) && AllWellEscaped(tail)
  {
    var all := [head] + tail;
    assert all[0] == head;
    if AllWellEscaped(all) {
      assert forall i :: 0 <= i < |tail| ==> tail[i] == all[i + 1];
    }
  }

  lemma {:induction false} WellEscapedSegments(s: Text)
    ensures WellEscaped(s) <==> AllWellEscaped(Split(s))
    decreases |s|
  {
    if s != [] {
      var rest := Split(s[1..]);
      WellEscapedSegments(s[1..]);
      assert rest == [rest[0]] + rest[1..];
      AllWellEscapedCons(rest[0], rest[1..]);
      if s[0] == SLASH {
        AllWellEscapedCons([], rest);
      } else {
        var first := [s[0]] + rest[0];
        AllWellEscapedCons(first, rest[1..]);
        assert first[1..] == rest[0];
        if s[0] == TILDE && |s| > 1 && s[1] != SLASH {
          var rest2 := Split(s[2..]);
          WellEscapedSegments(s[2..]);
          assert s[1..][1..] == s[2..];
          assert rest == [[s[1]] + rest2[0]] + rest2[1..];
          assert first[2..] == rest2[0] && rest[1..] == rest2[1..];
          assert rest2 == [rest2[0]] + rest2[1..];
          AllWellEscapedCons(rest2[0], rest2[1..]);
        }
      }
    }
  }

  // ---------------------------------------------------------------------
  // Pointers as lists of keys
  // ---------------------------------------------------------------------

  predicate ValidPointer(s: Text) {
    s == [] || (s[0] == SLASH && WellEscaped(s[1..]))
  }

  function EscapeAll(keys: seq<Text>): (r: seq<Text>)
    ensures |r| == |keys| && forall i :: 0 <= i < |keys| ==> r[i] == Escape(keys[i])
  {
    seq(|keys|, i requires 0 <= i < |keys| => Escape(keys[i]))
  }

  function UnescapeAll(segments: seq<Text>): (r: seq<Text>)
    ensures |r| == |segments| && forall i :: 0 <= i < |segments| ==> r[i] == Unescape(segments[i])
  {
    seq(|segments|, i requires 0 <= i < |segments| => Unescape(segments[i]))
  }

  function Encode(keys: seq<Text>): Text {
    Join(EscapeAll(keys))
  }

  function Keys(s: Text): seq<Text> {
    if s == [] then [] else UnescapeAll(Split(s[1..]))
  }

  /** `Join` without its leading slash. */
  function JoinBody(head: Text, rest: seq<Text>): Text {
    head + Join(rest)
  }

  lemma {:induction false} SplitOfBody(head: Text, rest: seq<Text>)
    requires SLASH !in head
    requires forall i :: 0 <= i < |rest| ==> SLASH !in rest[i]
    ensures Split(JoinBody(head, rest)) == [head] + rest
    decreases |rest|
  {
    SplitPlain(head);
    if rest == [] {
      assert JoinBody(head, rest) == head;
    } else {
      assert rest == [rest[0]] + rest[1..];
      JoinCons(rest[0], rest[1..]);
      SplitOfBody(rest[0], rest[1..]);
      var body := JoinBody(rest[0], rest[1..]);
      assert JoinBody(head, rest) == head + [SLASH] + body;
      SplitConcat(head, body);
    }
  }

  lemma SplitOfJoin(segments: seq<Text>)
    requires segments != []
    requires forall i :: 0 <= i < |segments| ==> SLASH !in segments[i]
    ensures Join(segments) != [] && Join(segments)[0] == SLASH
    ensures Split(Join(segments)[1..]) == segments
  {
    assert segments == [segments[0]] + segments[1..];
    JoinCons(segments[0], segments[1..]);
    SplitOfBody(segments[0], segments[1..]);
    assert Join(segments)[1..] == JoinBody(segments[0], segments[1..]);
  }

  /** Encoded keys form a valid pointer, and decoding gives the keys back. */
  lemma KeysOfEncode(keys: seq<Text>)
    ensures ValidPointer(Encode(keys))
    ensures Keys(Encode(keys)) == keys
  {
    forall i | 0 <= i < |keys|
      ensures Unescape(Escape(keys[i])) == keys[i] && WellEscaped(Escape(keys[i])) && SLASH !in Escape(keys[i])
    {
      UnescapeOfEscape(keys[i]);
    }
    if keys != [] {
      SplitOfJoin(EscapeAll(keys));
      WellEscapedSegments(Encode(keys)[1..]);
    }
  }

  /** The valid pointers are exactly the encodings of key lists: encoding the decoded keys restores the text. */
  lemma EncodeOfKeys(s: Text)
    ensures ValidPointer(s) <==> Encode(Keys(s)) == s
  {
    KeysOfEncode(Keys(s));
    if s != [] && ValidPointer(s) {
      var segments := Split(s[1..]);
      JoinOfSplit(s[1..]);
      SplitSegmentsPlain(s[1..]);
      WellEscapedSegments(s[1..]);
      forall i | 0 <= i < |segments|
        ensures Escape(Unescape(segments[i])) == segments[i]
      {
        EscapeOfUnescape(segments[i]);
      }
      assert EscapeAll(Keys(s)) == segments;
    }
  }

  lemma {:induction false} JoinConcat(a: seq<Text>, b: seq<Text>)
    ensures Join(a + b) == Join(a) + Join(b)
  {
    if a == [] {
      assert a + b == b;
    } else {
      assert (a + b)[0] == a[0] && (a + b)[1..] == a[1..] + b;
      JoinConcat(a[1..], b);
    }
  }

  // ---------------------------------------------------------------------
  // Array indices
  // ---------------------------------------------------------------------

  /** White space QString::toLongLong ignores at both ends. */
  predicate IsSpace(u: CodeUnit) {
    || u == 0x20 || 0x09 <= u <= 0x0D || u == 0x85 || u == 0xA0 || u == 0x1680 || 0x2000 <= u <= 0x200A
    || u == 0x2028 || u == 0x2029 || u == 0x202F || u == 0x205F || u == 0x3000
  }

  function TrimLeft(s: Text): Text {
    if s != [] && IsSpace(s[0]) then TrimLeft(s[1..]) else s
  }

  function TrimRight(s: Text): Text {
    if s != [] && IsSpace(s[|s| - 1]) then TrimRight(s[..|s| - 1]) else s
  }

  /** QString::toLongLong in base 10: blanks, then an optional sign, then digits, within 64 bits. */
  function ToLongLong(s: Text): Option<int> {
    var t := TrimRight(TrimLeft(s));
    var signed := t != [] && (t[0] == PLUS || t[0] == HYPHEN);
    var digits := if signed then t[1..] else t;
    if digits == [] || !AllDigits(digits) then None
    else
      var magnitude: int := ValueOf(digits);
      var value := if signed && t[0] == HYPHEN then -magnitude else magnitude;
      if -INT64_MAX - 1 <= value <= INT64_MAX then Some(value) else None
  }

  function ArrayIndex(s: Text): Option<nat> {
    if s == [] then None
    else if s == [DIGIT_0] then Some(0)
    else if s[0] == DIGIT_0 then None
    else
      match ToLongLong(s)
      case Some(value) => if value < 0 then None else Some(value)
      case None => None
  }

  lemma {:induction false} TrimDigits(s: Text)
    requires s == [] || (!IsSpace(s[0]) && !IsSpace(s[|s| - 1]))
    ensures TrimRight(TrimLeft(s)) == s
  {
  }

  lemma ToLongLongOfDigits(s: Text)
    requires s != [] && AllDigits(s)
    ensures ToLongLong(s) == if ValueOf(s) <= INT64_MAX then Some(ValueOf(s)) else None
  {
    TrimDigits(s);
  }

  /** White space of the Unicode basic plane. */
  predicate AllSpaces(s: Text) {
    forall i :: 0 <= i < |s| ==>
      || 0x09 <= s[i] <= 0x0D || 0x2000 <= s[i] <= 0x200A
      || s[i] in {0x20, 0x85, 0xA0, 0x1680, 0x2028, 0x2029, 0x202F, 0x205F, 0x3000}
  }

  /** How the source spells an index: blanks around an optional sign and digits; a leading zero only in "0" itself. */
  predicate SpelledAs(s: Text, left: Text, sign: Text, digits: Text, right: Text, i: nat) {
    && s == left + (sign + (digits + right)) && AllSpaces(left) && AllSpaces(right)
    && (sign == [] || sign == Ascii("+") || (sign == Ascii("-") && i == 0))
    && digits != [] && AllDigits(digits) && ValueOf(digits) == i && i < 0x8000_0000_0000_0000
    && (s[0] == 0x30 ==> s == Ascii("0"))
  }

  ghost predicate SpellsIndex(s: Text, i: nat) {
    exists left, sign, digits, right :: SpelledAs(s, left, sign, digits, right, i)
  }

  lemma {:induction false} TrimLeftOf(left: Text, rest: Text)
    requires AllSpaces(left) && (rest == [] || !IsSpace(rest[0]))
    ensures TrimLeft(left + rest) == rest
  {
    if left == [] {
      assert left + rest == rest;
    } else {
      assert (left + rest)[1..] == left[1..] + rest;
      TrimLeftOf(left[1..], rest);
    }
  }

  lemma {:induction false} TrimRightOf(rest: Text, right: Text)
    requires AllSpaces(right) && (rest == [] || !IsSpace(rest[|rest| - 1]))
    ensures TrimRight(rest + right) == rest
    decreases |right|
  {
    if right == [] {
      assert rest + right == rest;
    } else {
      assert (rest + right)[..|rest + right| - 1] == rest + right[..|right| - 1];
      TrimRightOf(rest, right[..|right| - 1]);
    }
  }

  lemma {:induction false} LeftBlanks(s: Text) returns (left: Text)
    ensures AllSpaces(left) && s == left + TrimLeft(s)
  {
    left := [];
    if s != [] && IsSpace(s[0]) {
      var more := LeftBlanks(s[1..]);
      left := [s[0]] + more;
    }
  }

  lemma {:induction false} RightBlanks(s: Text) returns (right: Text)
    ensures AllSpaces(right) && s == TrimRight(s) + right
    decreases |s|
  {
    right := [];
    if s != [] && IsSpace(s[|s| - 1]) {
      var more := RightBlanks(s[..|s| - 1]);
      right := more + [s[|s| - 1]];
      assert s == s[..|s| - 1] + [s[|s| - 1]];
    }
  }

  lemma Regroup(a: Text, b: Text, c: Text, d: Text)
    ensures a + ((b + c) + d) == a + (b + (c + d))
  {
  }

  /** A text is read as the index `i` exactly when it spells it. */
  lemma ArrayIndexSpells(s: Text, i: nat)
    ensures ArrayIndex(s) == Some(i) <==> SpellsIndex(s, i)
  {
    if ArrayIndex(s) == Some(i) {
      IndexIsSpelled(s, i);
    }
    if SpellsIndex(s, i) {
      var left, sign, digits, right :| SpelledAs(s, left, sign, digits, right, i);
      SpelledIsIndex(s, left, sign, digits, right, i);
    }
  }

  /** The sign and the digits of a trimmed text. */
  function SignOf(t: Text): Text {
    if t != [] && (t[0] == PLUS || t[0] == HYPHEN) then [t[0]] else []
  }

  function DigitsOf(t: Text): Text {
    t[|SignOf(t)|..]
  }

  lemma SignedText(sign: Text, digits: Text)
    requires sign == [] || sign == [PLUS] || sign == [HYPHEN]
    requires digits != [] && AllDigits(digits)
    ensures SignOf(sign + digits) == sign && DigitsOf(sign + digits) == digits
    ensures !IsSpace((sign + digits)[0]) && !IsSpace((sign + digits)[|sign + digits| - 1])
  {
    var t := sign + digits;
    assert IsDigit(digits[0]) && IsDigit(digits[|digits| - 1]);
    assert t[|t| - 1] == digits[|digits| - 1];
    if sign == [] {
      assert t == digits && t[0] == digits[0] && !IsSpace(t[0]);
    } else {
      assert t[0] == sign[0] && t[1..] == digits;
    }
  }

  lemma Trimming(s: Text) returns (left: Text, right: Text)
    ensures AllSpaces(left) && AllSpaces(right)
    ensures var t := TrimRight(TrimLeft(s)); s == left + (SignOf(t) + (DigitsOf(t) + right))
  {
    left := LeftBlanks(s);
    right := RightBlanks(TrimLeft(s));
    var t := TrimRight(TrimLeft(s));
    assert t == SignOf(t) + DigitsOf(t);
    Regroup(left, SignOf(t), DigitsOf(t), right);
  }

  lemma IndexIsSpelled(s: Text, i: nat)
    requires ArrayIndex(s) == Some(i)
    ensures SpellsIndex(s, i)
  {
    if s == [DIGIT_0] {
      ZeroIsSpelled();
    } else {
      var left, right := Trimming(s);
      var t := TrimRight(TrimLeft(s));
      IndexParts(s, t, i);
      PartsSpell(s, left, SignOf(t), DigitsOf(t), right, i);
    }
  }

  lemma ZeroIsSpelled()
    ensures SpellsIndex([DIGIT_0], 0)
  {
    var s: Text := [DIGIT_0];
    assert ValueOf(s) == 0 && s == [] + ([] + (s + []));
    assert SpelledAs(s, [], [], s, [], 0);
  }

  lemma PartsSpell(s: Text, left: Text, sign: Text, digits: Text, right: Text, i: nat)
    requires s == left + (sign + (digits + right)) && AllSpaces(left) && AllSpaces(right)
    requires sign == [] || sign == [PLUS] || (sign == [HYPHEN] && i == 0)
    requires digits != [] && AllDigits(digits) && ValueOf(digits) == i && i <= INT64_MAX
    requires s[0] != DIGIT_0
    ensures SpellsIndex(s, i)
  {
    assert SpelledAs(s, left, sign, digits, right, i);
  }

  lemma IndexParts(s: Text, t: Text, i: nat)
    requires ArrayIndex(s) == Some(i) && s != [DIGIT_0] && t == TrimRight(TrimLeft(s))
    ensures s != [] && s[0] != DIGIT_0 && i <= INT64_MAX
    ensures DigitsOf(t) != [] && AllDigits(DigitsOf(t)) && ValueOf(DigitsOf(t)) == i
    ensures SignOf(t) == [HYPHEN] ==> i == 0
  {
    assert ToLongLong(s) == Some(i);
    assert SignOf(t) == [] ==> DigitsOf(t) == t;
  }

  lemma SpelledIsIndex(s: Text, left: Text, sign: Text, digits: Text, right: Text, i: nat)
    requires SpelledAs(s, left, sign, digits, right, i)
    ensures ArrayIndex(s) == Some(i)
  {
    var t := sign + digits;
    SignedText(sign, digits);
    Regroup(left, sign, digits, right);
    assert (t + right)[0] == t[0];
    TrimLeftOf(left, t + right);
    TrimRightOf(t, right);
    assert ToLongLong(s) == Some(i);
    if s == [DIGIT_0] {
      TrimDigits(s);
      assert t == s && sign == [];
      assert digits == s && ValueOf(s) == 0;
    }
  }

  /** A digit string without a leading zero. */
  predicate PlainIndex(s: Text) {
    s != [] && AllDigits(s) && (s[0] == DIGIT_0 ==> |s| == 1)
  }

  lemma IndexOfPlain(s: Text)
    requires PlainIndex(s)
    ensures ArrayIndex(s) == if ValueOf(s) <= INT64_MAX then Some(ValueOf(s)) else None
  {
    if s == [DIGIT_0] {
      assert ValueOf(s) == 0;
    } else {
      ToLongLongOfDigits(s);
    }
  }

  /** A text without blanks or signs is an index exactly when it is canonical and fits 64 bits. */
  lemma PlainArrayIndex(s: Text)
    requires AllDigits(s)
    ensures ArrayIndex(s).Some? <==> PlainIndex(s) && ValueOf(s) <= INT64_MAX
    ensures ArrayIndex(s).Some? ==> Digits(ArrayIndex(s).value) == s
  {
    if PlainIndex(s) {
      IndexOfPlain(s);
      DigitsOfValue(s);
    }
  }

  lemma ArrayIndexOfDigits(i: nat)
    ensures ArrayIndex(Digits(i)) == if i <= INT64_MAX then Some(i) else None
  {
    PlainArrayIndex(Digits(i));
    ValueOfDigits(i);
    if ArrayIndex(Digits(i)).Some? {
      DigitsInjective(i, ArrayIndex(Digits(i)).value);
    }
  }

  function Classify(key: Text): Token {
    match ArrayIndex(key)
    case Some(i) => IndexToken(i, key)
    case None => KeyToken(key)
  }

  // ---------------------------------------------------------------------
  // Parsing and printing
  // ---------------------------------------------------------------------

  function ClassifyAll(keys: seq<Text>): (r: seq<Token>)
    ensures |r| == |keys| && forall i :: 0 <= i < |keys| ==> r[i] == Classify(keys[i])
  {
    seq(|keys|, i requires 0 <= i < |keys| => Classify(keys[i]))
  }

  function SyntaxError(s: Text): Option<ParseError> {
    if s == [] then None
    else if s[0] != SLASH then Some(MissingLeadingSlash)
    else if WellEscaped(s[1..]) then None
    else Some(InvalidEscapeSequence)
  }

  function Parse(s: Text): Result<seq<Token>, ParseError> {
    match SyntaxError(s)
    case Some(e) => Err(e)
    case None => Ok(ClassifyAll(Keys(s)))
  }

  /** The printer writes an index token from its number, a key token from its key. */
  function Rendered(token: Token): Text {
    if token.IndexToken? then Digits(token.index) else token.key
  }

  function RenderedAll(tokens: seq<Token>): (r: seq<Text>)
    ensures |r| == |tokens| && forall i :: 0 <= i < |tokens| ==> r[i] == Rendered(tokens[i])
  {
    seq(|tokens|, i requires 0 <= i < |tokens| => Rendered(tokens[i]))
  }

  function Print(tokens: seq<Token>): Text {
    Encode(RenderedAll(tokens))
  }

  predicate CanonicalToken(token: Token) {
    match token
    case KeyToken(key) => ArrayIndex(key).None?
    case IndexToken(index, key) => index <= INT64_MAX && key == Digits(index)
  }

  predicate Canonical(tokens: seq<Token>) {
    forall i :: 0 <= i < |tokens| ==> CanonicalToken(tokens[i])
  }

  lemma ClassifyRendered(token: Token)
    ensures Classify(Rendered(token)) == token <==> CanonicalToken(token)
  {
    if token.IndexToken? {
      ArrayIndexOfDigits(token.index);
    }
  }

  /** Printing a token list and parsing the text gives the list back exactly when it is canonical. */
  lemma ParseOfPrint(tokens: seq<Token>)
    ensures Parse(Print(tokens)).Ok?
    ensures Parse(Print(tokens)) == Ok(tokens) <==> Canonical(tokens)
  {
    KeysOfEncode(RenderedAll(tokens));
    var parsed := ClassifyAll(RenderedAll(tokens));
    forall i | 0 <= i < |tokens|
      ensures parsed[i] == tokens[i] <==> CanonicalToken(tokens[i])
    {
      ClassifyRendered(tokens[i]);
    }
    if parsed == tokens {
      assert forall i :: 0 <= i < |tokens| ==> parsed[i] == tokens[i];
    }
  }

  /** No reference token relies on the blanks and signs that toLongLong lets through. */
  predicate PlainIndices(keys: seq<Text>) {
    forall i :: 0 <= i < |keys| && ArrayIndex(keys[i]).Some? ==> AllDigits(keys[i])
  }

  /** Parsing a valid pointer and printing it restores the text exactly when its indices are plain digits. */
  lemma PrintOfParse(s: Text)
    requires ValidPointer(s)
    ensures Parse(s).Ok?
    ensures Print(Parse(s).value) == s <==> PlainIndices(Keys(s))
    ensures Canonical(Parse(s).value) <==> PlainIndices(Keys(s))
  {
    var keys := Keys(s);
    var rendered := RenderedAll(ClassifyAll(keys));
    EncodeOfKeys(s);
    KeysOfEncode(rendered);
    forall i | 0 <= i < |keys|
      ensures rendered[i] == keys[i] <==> (ArrayIndex(keys[i]).Some? ==> AllDigits(keys[i]))
      ensures CanonicalToken(Classify(keys[i])) <==> rendered[i] == keys[i]
    {
      if AllDigits(keys[i]) {
        PlainArrayIndex(keys[i]);
      }
      if ArrayIndex(keys[i]).Some? && rendered[i] == keys[i] {
        ArrayIndexOfDigits(ArrayIndex(keys[i]).value);
      }
    }
    if rendered == keys {
      assert forall i :: 0 <= i < |keys| ==> rendered[i] == keys[i];
    }
    if PlainIndices(keys) {
      assert forall i :: 0 <= i < |keys| ==> rendered[i] == keys[i];
      assert rendered == keys;
    }
  }

  /** "/+5" is accepted, addresses element 5, and prints as "/5". */
  lemma SignedIndexDoesNotRoundTrip()
    ensures var s := [SLASH, PLUS, 0x35];
            Parse(s) == Ok([IndexToken(5, [PLUS, 0x35])]) && Print(Parse(s).value) == [SLASH, 0x35]
  {
    var s := [SLASH, PLUS, 0x35];
    var key: Text := [PLUS, 0x35];
    assert s[1..] == key;
    SplitPlain(key);
    assert Unescape(key) == key by {
      assert key[1..] == [0x35] && Unescape([0x35]) == [0x35] + Unescape([]);
    }
    assert Keys(s) == [key];
    TrimDigits(key);
    assert ToLongLong(key) == Some(5) by {
      assert key[1..][..0] == [];
    }
    assert ClassifyAll([key]) == [IndexToken(5, key)];
    assert WellEscaped(key) by {
      assert WellEscaped(key[1..]);
    }
    assert Digits(5) == [0x35];
    assert RenderedAll([IndexToken(5, key)]) == [[0x35]];
    assert Escape([0x35]) == [0x35] + Escape([]);
    assert EscapeAll([[0x35]]) == [[0x35]];
    assert Join([[0x35]]) == [SLASH] + [0x35] + Join([]);
  }

  // ---------------------------------------------------------------------
  // The prefix test of the move operation
  // ---------------------------------------------------------------------

  /** `from` is an initial segment of `path`, and what follows starts a new token. */
  predicate StringPrefixTest(from: Text, path: Text) {
    |path| > |from| && from <= path && path[|from|] == SLASH
  }

  predicate ProperPrefix<T(==)>(a: seq<T>, b: seq<T>) {
    |a| < |b| && a <= b
  }

  lemma EncodeConcat(a: seq<Text>, b: seq<Text>)
    ensures Encode(a + b) == Encode(a) + Encode(b)
  {
    assert EscapeAll(a + b) == EscapeAll(a) + EscapeAll(b);
    JoinConcat(EscapeAll(a), EscapeAll(b));
  }

  /** Section 3 of RFC 6901: "/" before each key, with "~0" for a tilde and "~1" for a slash in it. */
  lemma EncodingIsSpelled(keys: seq<Text>, key: Text, u: CodeUnit)
    ensures Encode([]) == []
    ensures Encode(keys + [key]) == Encode(keys) + Ascii("/") + Escape(key)
    ensures Escape([]) == []
    ensures Escape([u] + key) ==
            (if u == '~' as int then Ascii("~0") else if u == '/' as int then Ascii("~1") else [u]) + Escape(key)
  {
    EncodeConcat(keys, [key]);
    assert EscapeAll([key]) == [Escape(key)] && [Escape(key)] + [] == [Escape(key)];
    JoinCons(Escape(key), []);
    assert Escape(key) + Join([]) == Escape(key) && EscapeAll([]) == [];
    assert Encode([key]) == [SLASH] + (Escape(key) + Join([]));
    assert Encode(keys) + ([SLASH] + Escape(key)) == Encode(keys) + [SLASH] + Escape(key);
    assert ([u] + key)[1..] == key;
    assert Ascii("/") == [SLASH] && Ascii("~0") == [TILDE, DIGIT_0] && Ascii("~1") == [TILDE, DIGIT_1];
  }

  lemma UnescapeAllConcat(a: seq<Text>, b: seq<Text>)
    ensures UnescapeAll(a + b) == UnescapeAll(a) + UnescapeAll(b)
  {
  }

  lemma DropFirst(a: Text, b: Text)
    requires a != []
    ensures (a + [SLASH] + b)[1..] == a[1..] + [SLASH] + b
  {
  }

  lemma KeysConcat(a: seq<Text>, tail: Text)
    ensures Keys(Encode(a) + [SLASH] + tail) == a + UnescapeAll(Split(tail))
  {
    var e := Encode(a);
    KeysOfEncode(a);
    if a == [] {
      assert (e + [SLASH] + tail)[1..] == tail;
    } else {
      DropFirst(e, tail);
      SplitConcat(e[1..], tail);
      UnescapeAllConcat(Split(e[1..]), Split(tail));
    }
  }

  lemma StringPrefixIsKeyPrefix(a: seq<Text>, b: seq<Text>)
    ensures StringPrefixTest(Encode(a), Encode(b)) <==> ProperPrefix(a, b)
  {
    if ProperPrefix(a, b) {
      var rest := b[|a|..];
      assert b == a + rest;
      EncodeConcat(a, rest);
    }
    if StringPrefixTest(Encode(a), Encode(b)) {
      var tail := Encode(b)[|Encode(a)| + 1..];
      assert Encode(b) == Encode(a) + [SLASH] + tail;
      KeysConcat(a, tail);
      KeysOfEncode(b);
    }
  }

  /** The string test is exact on the printed keys, hence on the token lists when they are canonical. */
  lemma PrefixTestIsExact(from: seq<Token>, path: seq<Token>)
    ensures StringPrefixTest(Print(from), Print(path)) <==> ProperPrefix(RenderedAll(from), RenderedAll(path))
    ensures Canonical(from) && Canonical(path) ==>
              (StringPrefixTest(Print(from), Print(path)) <==> ProperPrefix(from, path))
  {
    var a, b := RenderedAll(from), RenderedAll(path);
    StringPrefixIsKeyPrefix(a, b);
    if Canonical(from) && Canonical(path) {
      forall i | 0 <= i < |from|
        ensures Classify(a[i]) == from[i]
      {
        ClassifyRendered(from[i]);
      }
      forall i | 0 <= i < |path|
        ensures Classify(b[i]) == path[i]
      {
        ClassifyRendered(path[i]);
      }
      if a <= b && |a| < |b| {
        assert forall i :: 0 <= i < |a| ==> b[i] == a[i];
      }
      if from <= path && |from| < |path| {
        assert forall i :: 0 <= i < |from| ==> path[i] == from[i];
      }
    }
  }
}
