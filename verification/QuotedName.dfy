/** Quoted member names in JSONPath brackets (section 2.3.1 of RFC 9535). */
module QuotedName {
  import opened JsonValue
  import opened Utf16

  datatype QuoteStyle = SingleQuote | DoubleQuote

  const BACKSLASH: CodeUnit := 0x5C
  const QUOTE: CodeUnit := 0x22
  const APOSTROPHE: CodeUnit := 0x27
  const SLASH: CodeUnit := 0x2F
  const LOWER_B: CodeUnit := 0x62
  const LOWER_F: CodeUnit := 0x66
  const LOWER_N: CodeUnit := 0x6E
  const LOWER_R: CodeUnit := 0x72
  const LOWER_T: CodeUnit := 0x74
  const LOWER_U: CodeUnit := 0x75
  const SPACE: CodeUnit := 0x20

  function QuoteUnit(style: QuoteStyle): CodeUnit {
    if style.SingleQuote? then APOSTROPHE else QUOTE
  }

  // ---------------------------------------------------------------------
  // Hex digits
  // ---------------------------------------------------------------------

  predicate IsAsciiDigit(u: CodeUnit) {
    0x30 <= u <= 0x39
  }

  predicate IsHexLetter(u: CodeUnit) {
    0x41 <= u <= 0x46 || 0x61 <= u <= 0x66
  }

  predicate IsAsciiHex(u: CodeUnit) {
    IsAsciiDigit(u) || IsHexLetter(u)
  }

  function LetterValue(u: CodeUnit): nat
    requires IsHexLetter(u)
  {
    if u <= 0x46 then u - 0x41 + 10 else u - 0x61 + 10
  }

  /** QChar::isDigit and digitValue: decimal digits of any script, the ASCII ones among them. */
  ghost predicate IsDigitTable(digit: CodeUnit -> Option<nat>) {
    && (forall u :: u < 0x80 ==> digit(u) == if IsAsciiDigit(u) then Some(u - 0x30) else None)
    && (forall u :: digit(u).Some? ==> digit(u).value <= 9 && !IsSurrogate(u))
  }

  /** The validator's reading of a hex digit. */
  function HexValue(u: CodeUnit, digit: CodeUnit -> Option<nat>): Option<nat> {
    if digit(u).Some? then digit(u)
    else if IsHexLetter(u) then Some(LetterValue(u))
    else None
  }

  function HexCode(h: Text, digit: CodeUnit -> Option<nat>): Option<nat>
    requires |h| == 4
  {
    if forall k :: 0 <= k < 4 ==> HexValue(h[k], digit).Some? then
      Some(((HexValue(h[0], digit).value * 16 + HexValue(h[1], digit).value) * 16
            + HexValue(h[2], digit).value) * 16 + HexValue(h[3], digit).value)
    else None
  }

  predicate AllAsciiHex(h: Text) {
    forall k :: 0 <= k < |h| ==> IsAsciiHex(h[k])
  }

  function AsciiHexValue(u: CodeUnit): nat
    requires IsAsciiHex(u)
  {
    if IsAsciiDigit(u) then u - 0x30 else LetterValue(u)
  }

  /** QString::toUInt in base 16 on four units: ASCII digits only. */
  function ToUInt16(h: Text): Option<nat>
    requires |h| == 4
  {
    if AllAsciiHex(h) then
      Some(((AsciiHexValue(h[0]) * 16 + AsciiHexValue(h[1])) * 16 + AsciiHexValue(h[2])) * 16 + AsciiHexValue(h[3]))
    else None
  }

  lemma HexDigitsAgree(u: CodeUnit, digit: CodeUnit -> Option<nat>)
    requires IsDigitTable(digit)
    ensures HexValue(u, digit).Some? ==> HexValue(u, digit).value <= 15
    ensures IsAsciiHex(u) ==> HexValue(u, digit) == Some(AsciiHexValue(u))
  {
  }

  lemma HexReadingsAgree(h: Text, digit: CodeUnit -> Option<nat>)
    requires |h| == 4 && IsDigitTable(digit)
    ensures HexCode(h, digit).Some? ==> HexCode(h, digit).value <= 0xFFFF
    ensures AllAsciiHex(h) ==> HexCode(h, digit) == ToUInt16(h)
  {
    forall k | 0 <= k < 4
      ensures HexValue(h[k], digit).Some? ==> HexValue(h[k], digit).value <= 15
      ensures IsAsciiHex(h[k]) ==> HexValue(h[k], digit) == Some(AsciiHexValue(h[k]))
    {
      HexDigitsAgree(h[k], digit);
    }
  }

  // ---------------------------------------------------------------------
  // The grammar
  // ---------------------------------------------------------------------

  function SimpleEscape(u: CodeUnit): Option<CodeUnit> {
    if u == LOWER_B then Some(0x08)
    else if u == LOWER_F then Some(0x0C)
    else if u == LOWER_N then Some(0x0A)
    else if u == LOWER_R then Some(0x0D)
    else if u == LOWER_T then Some(0x09)
    else if u == BACKSLASH || u == SLASH || u == QUOTE || u == APOSTROPHE then Some(u)
    else None
  }

  predicate EscapableHere(u: CodeUnit, style: QuoteStyle) {
    SimpleEscape(u).Some? && (u == QUOTE ==> style.DoubleQuote?) && (u == APOSTROPHE ==> style.SingleQuote?)
  }

  /** The code of a \uXXXX escape at the start of `s`. */
  function HexEscape(s: Text, digit: CodeUnit -> Option<nat>): Option<nat> {
    if |s| >= 6 && s[0] == BACKSLASH && s[1] == LOWER_U then HexCode(s[2..6], digit) else None
  }

  predicate HighCode(code: Option<nat>) {
    code.Some? && 0xD800 <= code.value <= 0xDBFF
  }

  predicate LowCode(code: Option<nat>) {
    code.Some? && 0xDC00 <= code.value <= 0xDFFF
  }

  /**
   * One item of a quoted name: how many units it takes and the text it stands for.
   * An unescaped unit, a one-letter escape, a non-surrogate \uXXXX, or a
   * surrogate pair of them.
   */
  function Item(s: Text, style: QuoteStyle, digit: CodeUnit -> Option<nat>): (r: Option<(nat, Text)>)
    requires s != []
    ensures r.Some? ==> 0 < r.value.0 <= |s|
  {
    var code := HexEscape(s, digit);
    if s[0] != BACKSLASH then
      if s[0] < SPACE || s[0] == QuoteUnit(style) then None else Some((1, [s[0]]))
    else if |s| > 1 && EscapableHere(s[1], style) then Some((2, [SimpleEscape(s[1]).value]))
    else if code.None? || LowCode(code) || code.value > 0xFFFF then None
    else if !HighCode(code) then Some((6, [code.value]))
    else
      var second := HexEscape(s[6..], digit);
      if LowCode(second) then Some((12, [code.value, second.value])) else None
  }

  predicate ValidName(s: Text, style: QuoteStyle, digit: CodeUnit -> Option<nat>)
    decreases |s|
  {
    s == [] || (Item(s, style, digit).Some? && ValidName(s[Item(s, style, digit).value.0..], style, digit))
  }

  /** The text a valid quoted name stands for. */
  function NameText(s: Text, style: QuoteStyle, digit: CodeUnit -> Option<nat>): Text
    requires ValidName(s, style, digit)
    decreases |s|
  {
    if s == [] then []
    else
      var (n, text) := Item(s, style, digit).value;
      text + NameText(s[n..], style, digit)
  }

  // ---------------------------------------------------------------------
  // The validator: one pass with a "low surrogate expected" flag
  // ---------------------------------------------------------------------

  /** What the rest of the input must be, given the flag. */
  predicate ValidRest(s: Text, expectLow: bool, style: QuoteStyle, digit: CodeUnit -> Option<nat>) {
    if expectLow then LowCode(HexEscape(s, digit)) && ValidName(s[6..], style, digit)
    else ValidName(s, style, digit)
  }

  lemma UnitRest(s: Text, expectLow: bool, style: QuoteStyle, digit: CodeUnit -> Option<nat>)
    requires s != [] && (s[0] != BACKSLASH || |s| == 1 || s[1] != LOWER_U)
    ensures ValidRest(s, expectLow, style, digit) <==>
              !expectLow && if s[0] != BACKSLASH then
                s[0] >= SPACE && s[0] != QuoteUnit(style) && ValidName(s[1..], style, digit)
              else
                |s| > 1 && EscapableHere(s[1], style) && ValidName(s[2..], style, digit)
  {
  }

  lemma HexRest(s: Text, expectLow: bool, style: QuoteStyle, digit: CodeUnit -> Option<nat>)
    requires IsDigitTable(digit)
    requires |s| >= 2 && s[0] == BACKSLASH && s[1] == LOWER_U
    ensures ValidRest(s, expectLow, style, digit) <==>
              && HexEscape(s, digit).Some?
              && if expectLow then LowCode(HexEscape(s, digit)) && ValidName(s[6..], style, digit)
                 else !LowCode(HexEscape(s, digit))
                      && ValidRest(s[6..], HighCode(HexEscape(s, digit)), style, digit)
  {
    if HexEscape(s, digit).Some? {
      HexReadingsAgree(s[2..6], digit);
      if HighCode(HexEscape(s, digit)) && LowCode(HexEscape(s[6..], digit)) {
        assert s[12..] == s[6..][6..];
      }
    }
  }

  method ReadHex(key: Text, at: nat, digit: CodeUnit -> Option<nat>) returns (code: Option<nat>)
    requires at + 4 <= |key|
    requires IsDigitTable(digit)
    ensures code == HexCode(key[at..at + 4], digit)
    ensures code.Some? ==> code.value <= 0xFFFF
  {
    var value := 0;
    var k := 0;
    ghost var h := key[at..at + 4];
    HexReadingsAgree(h, digit);
    while k < 4
      invariant 0 <= k <= 4
      invariant forall j :: 0 <= j < k ==> HexValue(h[j], digit).Some?
      invariant k == 0 ==> value == 0
      invariant k == 1 ==> value == HexValue(h[0], digit).value
      invariant k == 2 ==> value == HexValue(h[0], digit).value * 16 + HexValue(h[1], digit).value
      invariant k == 3 ==> value == (HexValue(h[0], digit).value * 16 + HexValue(h[1], digit).value) * 16
                                    + HexValue(h[2], digit).value
      invariant k == 4 ==> Some(value) == HexCode(h, digit)
    {
      var u := key[at + k];
      assert u == h[k];
      var v := HexValue(u, digit);
      if v.None? {
        return None;
      }
      value := value * 16 + v.value;
      k := k + 1;
    }
    code := Some(value);
  }

  method IsValidQuotedKey(key: Text, style: QuoteStyle, digit: CodeUnit -> Option<nat>) returns (valid: bool)
    requires IsDigitTable(digit)
    ensures valid <==> ValidName(key, style, digit)
  {
    var expectLowSurrogate := false;
    var i := 0;
    assert key[0..] == key;
    while i < |key|
      invariant 0 <= i <= |key|
      invariant ValidName(key, style, digit) <==> ValidRest(key[i..], expectLowSurrogate, style, digit)
      invariant expectLowSurrogate ==> i + 1 < |key| && key[i + 1] == LOWER_U
    {
      var ch := key[i];
      ghost var s := key[i..];
      if ch < SPACE || ch == QuoteUnit(style) {
        return false;
      }
      if ch != BACKSLASH {
        UnitRest(s, expectLowSurrogate, style, digit);
        if expectLowSurrogate {
          return false;
        }
        assert s[1..] == key[i + 1..];
        i := i + 1;
        continue;
      }
      if i + 1 >= |key| {
        return false;
      }
      var esc := key[i + 1];
      if esc == LOWER_U {
        HexRest(s, expectLowSurrogate, style, digit);
        if i + 5 >= |key| {
          return false;
        }
        var code := ReadHex(key, i + 2, digit);
        assert s[2..6] == key[i + 2..i + 6];
        assert HexEscape(s, digit) == code;
        if code.None? {
          return false;
        }
        assert s[6..] == key[i + 6..];
        if expectLowSurrogate {
          if !LowCode(code) {
            return false;
          }
          expectLowSurrogate := false;
        } else if HighCode(code) {
          if i + 11 >= |key| {
            return false;
          }
          if key[i + 6] != BACKSLASH || key[i + 7] != LOWER_U {
            return false;
          }
          expectLowSurrogate := true;
        } else if LowCode(code) {
          return false;
        }
        i := i + 6;
      } else {
        UnitRest(s, expectLowSurrogate, style, digit);
        if !EscapableHere(esc, style) {
          return false;
        }
        assert s[2..] == key[i + 2..];
        i := i + 2;
      }
    }
    return !expectLowSurrogate;
  }

  // ---------------------------------------------------------------------
  // Unescaping
  // ---------------------------------------------------------------------

  /** One turn of the unescaping loop, fallbacks included: units consumed and text appended. */
  function Turn(s: Text): (r: (nat, Text))
    requires s != []
    ensures 0 < r.0 <= |s|
  {
    if s[0] != BACKSLASH || |s| == 1 then (1, [s[0]])
    else if SimpleEscape(s[1]).Some? then (2, [SimpleEscape(s[1]).value])
    else if s[1] == LOWER_U && |s| >= 6 && ToUInt16(s[2..6]).Some? && ToUInt16(s[2..6]).value <= 0xFFFF then
      (6, [ToUInt16(s[2..6]).value])
    else (1, [s[0]])
  }

  function Unescaped(s: Text): Text
    decreases |s|
  {
    if s == [] then [] else Turn(s).1 + Unescaped(s[Turn(s).0..])
  }

  /** The loop body: what the unit at `i` and its escape, if any, contribute. */
  method UnescapeOne(key: Text, i: nat) returns (next: nat, text: Text)
    requires i < |key|
    ensures (next - i, text) == Turn(key[i..])
  {
    var c := key[i];
    ghost var s := key[i..];
    next, text := i + 1, [c];
    if c == BACKSLASH && i + 1 < |key| {
      var esc := key[i + 1];
      if SimpleEscape(esc).Some? {
        return i + 2, [SimpleEscape(esc).value];
      }
      if esc == LOWER_U && i + 5 < |key| {
        var hex := key[i + 2..i + 6];
        assert hex == s[2..6];
        var code := ToUInt16(hex);
        ToUIntFits(hex);
        if code.Some? {
          return i + 6, [code.value];
        }
      }
    }
  }

  method UnescapeQuotedKey(key: Text) returns (result: Text)
    ensures result == Unescaped(key)
  {
    result := [];
    var i := 0;
    assert key[0..] == key;
    while i < |key|
      invariant 0 <= i <= |key|
      invariant result + Unescaped(key[i..]) == Unescaped(key)
    {
      UnescapedByTurn(result, key[i..]);
      var next, text := UnescapeOne(key, i);
      assert key[i..][next - i..] == key[next..];
      result := result + text;
      i := next;
    }
  }

  lemma ToUIntFits(h: Text)
    requires |h| == 4
    ensures ToUInt16(h).Some? ==> ToUInt16(h).value <= 0xFFFF
  {
  }

  lemma UnescapedByTurn(done: Text, s: Text)
    requires s != []
    ensures done + Unescaped(s) == (done + Turn(s).1) + Unescaped(s[Turn(s).0..])
  {
  }

  // ---------------------------------------------------------------------
  // What the escapes stand for
  // ---------------------------------------------------------------------

  /** The one-letter escapes of section 2.3.1.1 of RFC 9535 and their units; a quote only between its own. */
  ghost predicate StandsFor(letter: CodeUnit, unit: CodeUnit, style: QuoteStyle) {
    || (letter == 'b' as int && unit == 0x08)
    || (letter == 't' as int && unit == 0x09)
    || (letter == 'n' as int && unit == 0x0A)
    || (letter == 'f' as int && unit == 0x0C)
    || (letter == 'r' as int && unit == 0x0D)
    || (letter == unit == '/' as int)
    || (letter == unit == 0x5C)
    || (letter == unit == if style.SingleQuote? then 0x27 else 0x22)
  }

  ghost predicate Spells(u: CodeUnit, hex: nat) {
    hex < 16 && (u == "0123456789abcdef"[hex] as int || u == "0123456789ABCDEF"[hex] as int)
  }

  /** A unit other than the backslash: an item exactly if it is neither a control character nor the closing quote. */
  lemma PlainUnit(u: CodeUnit, rest: Text, style: QuoteStyle, digit: CodeUnit -> Option<nat>)
    requires u != 0x5C
    ensures Item([u] + rest, style, digit) ==
              if u >= 0x20 && u != (if style.SingleQuote? then 0x27 else 0x22) then Some((1, [u])) else None
    ensures Unescaped([u] + rest) == [u] + Unescaped(rest)
  {
    var s := [u] + rest;
    assert s[1..] == rest;
  }

  /** A backslash and a letter: an item exactly for the letters of the table, which the unescaper reads alike. */
  lemma LetterEscape(letter: CodeUnit, unit: CodeUnit, rest: Text, style: QuoteStyle, digit: CodeUnit -> Option<nat>)
    ensures Item([0x5C, letter] + rest, style, digit) == Some((2, [unit])) <==> StandsFor(letter, unit, style)
    ensures StandsFor(letter, unit, style) ==> Unescaped([0x5C, letter] + rest) == [unit] + Unescaped(rest)
  {
    var s := [0x5C, letter] + rest;
    assert s[2..] == rest;
    if Item(s, style, digit) == Some((2, [unit])) {
      assert EscapableHere(letter, style) && [unit][0] == [SimpleEscape(letter).value][0];
    }
  }

  /** "\u" and four hex digits in either case: the unit of that number, but for surrogates apart. */
  lemma HexEscapeSpells(u: Text, hex: seq<nat>, rest: Text, style: QuoteStyle, digit: CodeUnit -> Option<nat>)
    requires IsDigitTable(digit)
    requires |u| == |hex| == 4 && forall k :: 0 <= k < 4 ==> Spells(u[k], hex[k])
    ensures var code := hex[0] * 0x1000 + hex[1] * 0x100 + hex[2] * 0x10 + hex[3];
            && code < 0x1_0000
            && Unescaped(Ascii("\\u") + u + rest) == [code] + Unescaped(rest)
            && (!IsSurrogate(code) ==> Item(Ascii("\\u") + u + rest, style, digit) == Some((6, [code])))
  {
    SpelledCode(u, hex, digit);
    EscapeIsRead(u, rest, style, digit);
  }

  /** A surrogate is spelled with its other half behind it, the high one first, and is no item otherwise. */
  lemma SurrogatesSpell(u: Text, v: Text, high: seq<nat>, low: seq<nat>, rest: Text, style: QuoteStyle,
                        digit: CodeUnit -> Option<nat>)
    requires IsDigitTable(digit)
    requires |u| == |high| == 4 && forall k :: 0 <= k < 4 ==> Spells(u[k], high[k])
    requires |v| == |low| == 4 && forall k :: 0 <= k < 4 ==> Spells(v[k], low[k])
    ensures var first := high[0] * 0x1000 + high[1] * 0x100 + high[2] * 0x10 + high[3];
            var second := low[0] * 0x1000 + low[1] * 0x100 + low[2] * 0x10 + low[3];
            0xD800 <= first < 0xE000 ==>
              Item(Ascii("\\u") + u + (Ascii("\\u") + v + rest), style, digit) ==
              if first < 0xDC00 && 0xDC00 <= second < 0xE000 then Some((12, [first, second])) else None
  {
    SpelledCode(u, high, digit);
    SpelledCode(v, low, digit);
    EscapeIsRead(u, Ascii("\\u") + v + rest, style, digit);
    EscapeIsRead(v, rest, style, digit);
  }

  lemma EscapeIsRead(u: Text, rest: Text, style: QuoteStyle, digit: CodeUnit -> Option<nat>)
    requires IsDigitTable(digit)
    requires |u| == 4 && AllAsciiHex(u)
    ensures var s := Ascii("\\u") + u + rest;
            var code := HexCode(u, digit);
            && code.Some? && code.value < 0x1_0000
            && Unescaped(s) == [code.value] + Unescaped(rest)
            && HexEscape(s, digit) == code && s[6..] == rest
            && Item(s, style, digit) ==
               if !IsSurrogate(code.value) then Some((6, [code.value]))
               else if HighCode(code) && LowCode(HexEscape(rest, digit)) then
                 Some((12, [code.value, HexEscape(rest, digit).value]))
               else None
  {
    var s := Ascii("\\u") + u + rest;
    assert s[2..6] == u && s[6..] == rest;
    assert s[0] == BACKSLASH && s[1] == LOWER_U;
    HexReadingsAgree(u, digit);
    UnescapedHex(s, digit);
  }

  lemma SpelledCode(u: Text, hex: seq<nat>, digit: CodeUnit -> Option<nat>)
    requires IsDigitTable(digit)
    requires |u| == |hex| == 4 && forall k :: 0 <= k < 4 ==> Spells(u[k], hex[k])
    ensures AllAsciiHex(u)
    ensures HexCode(u, digit) == Some(hex[0] * 0x1000 + hex[1] * 0x100 + hex[2] * 0x10 + hex[3])
  {
    forall k | 0 <= k < 4
      ensures HexValue(u[k], digit) == Some(hex[k]) && IsAsciiHex(u[k])
    {
      SpelledHex(u[k], hex[k]);
    }
  }

  lemma SpelledHex(u: CodeUnit, hex: nat)
    requires Spells(u, hex)
    ensures IsAsciiHex(u) && AsciiHexValue(u) == hex
    ensures IsHexLetter(u) <==> hex >= 10
  {
    var lower, upper := "0123456789abcdef", "0123456789ABCDEF";
    if hex < 10 {
      assert lower[hex] as int == upper[hex] as int == 0x30 + hex;
    } else {
      assert lower[hex] as int == 0x61 + hex - 10 && upper[hex] as int == 0x41 + hex - 10;
    }
  }

  // ---------------------------------------------------------------------
  // Validator and unescaper together
  // ---------------------------------------------------------------------

  /** Every \uXXXX escape of a valid name is spelled with ASCII hex digits. */
  predicate AsciiEscapes(s: Text, style: QuoteStyle, digit: CodeUnit -> Option<nat>)
    requires ValidName(s, style, digit)
    decreases |s|
  {
    s == [] ||
    var n := Item(s, style, digit).value.0;
    && (n >= 6 ==> AllAsciiHex(s[2..6]))
    && (n == 12 ==> AllAsciiHex(s[8..12]))
    && AsciiEscapes(s[n..], style, digit)
  }

  lemma UnescapedHead(s: Text)
    requires s != [] && s[0] != BACKSLASH
    ensures Unescaped(s) == [s[0]] + Unescaped(s[1..])
  {
    assert Turn(s) == (1, [s[0]]);
  }

  lemma ConsPrefix(s: Text, n: nat, rest: Text)
    requires 0 < n <= |s|
    ensures [s[0]] + (s[1..][..n - 1] + rest) == s[..n] + rest
  {
    assert s[..n] == [s[0]] + s[1..][..n - 1];
  }

  lemma {:induction false} UnescapedPlain(s: Text, n: nat)
    requires n <= |s|
    requires forall k :: 0 <= k < n ==> s[k] != BACKSLASH
    ensures Unescaped(s) == s[..n] + Unescaped(s[n..])
  {
    if n == 0 {
      assert s[0..] == s;
    } else {
      UnescapedHead(s);
      UnescapedPlain(s[1..], n - 1);
      assert s[1..][n - 1..] == s[n..];
      ConsPrefix(s, n, Unescaped(s[n..]));
    }
  }

  /** A hex escape is decoded when spelled in ASCII; otherwise its six units are copied. */
  lemma UnescapedHex(s: Text, digit: CodeUnit -> Option<nat>)
    requires IsDigitTable(digit)
    requires HexEscape(s, digit).Some?
    ensures HexEscape(s, digit).value <= 0xFFFF
    ensures AllAsciiHex(s[2..6]) ==> Unescaped(s) == [HexEscape(s, digit).value] + Unescaped(s[6..])
    ensures !AllAsciiHex(s[2..6]) ==> Unescaped(s) == s[..6] + Unescaped(s[6..])
  {
    var h := s[2..6];
    HexReadingsAgree(h, digit);
    if !AllAsciiHex(h) {
      forall k | 1 <= k < 6
        ensures s[k] != BACKSLASH
      {
        if k >= 2 {
          assert s[k] == h[k - 2] && HexValue(h[k - 2], digit).Some?;
          assert digit(BACKSLASH) == None;
        }
      }
      UnescapedPlain(s[1..], 5);
      assert s[1..][5..] == s[6..];
      assert s[..6] == [s[0]] + s[1..][..5];
    }
  }

  /** One item of a valid name: decoded exactly when its escapes are ASCII, copied at greater length otherwise. */
  lemma UnescapedItem(s: Text, style: QuoteStyle, digit: CodeUnit -> Option<nat>)
    requires IsDigitTable(digit)
    requires s != [] && Item(s, style, digit).Some?
    ensures var (n, text) := Item(s, style, digit).value;
            var ascii := (n >= 6 ==> AllAsciiHex(s[2..6])) && (n == 12 ==> AllAsciiHex(s[8..12]));
            && (ascii ==> Unescaped(s) == text + Unescaped(s[n..]))
            && (!ascii ==> |Unescaped(s)| > |text| + |Unescaped(s[n..])|)
  {
    var (n, text) := Item(s, style, digit).value;
    if n == 12 {
      PairLength(s, digit);
    } else if n == 6 {
      UnescapedHex(s, digit);
    } else {
      UnescapedByTurn([], s);
    }
  }

  lemma {:induction false} UnescapedLength(s: Text, style: QuoteStyle, digit: CodeUnit -> Option<nat>)
    requires IsDigitTable(digit)
    requires ValidName(s, style, digit)
    ensures AsciiEscapes(s, style, digit) ==> Unescaped(s) == NameText(s, style, digit)
    ensures !AsciiEscapes(s, style, digit) ==> |Unescaped(s)| > |NameText(s, style, digit)|
    decreases |s|
  {
    if s != [] {
      UnescapedItem(s, style, digit);
      UnescapedLength(s[Item(s, style, digit).value.0..], style, digit);
    }
  }

  lemma PairLength(s: Text, digit: CodeUnit -> Option<nat>)
    requires IsDigitTable(digit)
    requires HexEscape(s, digit).Some? && HexEscape(s[6..], digit).Some?
    ensures |s| >= 12
    ensures AllAsciiHex(s[2..6]) && AllAsciiHex(s[8..12]) ==>
              Unescaped(s) == [HexEscape(s, digit).value, HexEscape(s[6..], digit).value] + Unescaped(s[12..])
    ensures !(AllAsciiHex(s[2..6]) && AllAsciiHex(s[8..12])) ==> |Unescaped(s)| > 2 + |Unescaped(s[12..])|
  {
    var t := s[6..];
    assert t[6..] == s[12..] && t[2..6] == s[8..12];
    UnescapedHex(s, digit);
    UnescapedHex(t, digit);
    ConsCons(HexEscape(s, digit).value, HexEscape(t, digit).value, Unescaped(s[12..]));
  }

  lemma ConsCons(a: int, b: int, rest: seq<int>)
    ensures [a] + ([b] + rest) == [a, b] + rest
  {
  }

  /**
   * On a name the validator accepts, the unescaper yields the text the grammar
   * assigns to it exactly when the hex digits are ASCII: no fallback is taken.
   */
  lemma UnescapeIsExact(s: Text, style: QuoteStyle, digit: CodeUnit -> Option<nat>)
    requires IsDigitTable(digit)
    requires ValidName(s, style, digit)
    ensures Unescaped(s) == NameText(s, style, digit) <==> AsciiEscapes(s, style, digit)
  {
    UnescapedLength(s, style, digit);
  }

  const ARABIC_0: CodeUnit := 0x0660

  /** The digits of ASCII and the Arabic-Indic ones. */
  function TwoScripts(u: CodeUnit): Option<nat> {
    if IsAsciiDigit(u) then Some(u - 0x30)
    else if ARABIC_0 <= u <= ARABIC_0 + 9 then Some(u - ARABIC_0)
    else None
  }

  /** A backslash, "u" and the Arabic-Indic digits 0041 stand for "A", and come out as they are written. */
  lemma ForeignDigitsAreCopied()
    ensures IsDigitTable(TwoScripts)
    ensures var s: Text := [BACKSLASH, LOWER_U, ARABIC_0, ARABIC_0, ARABIC_0 + 4, ARABIC_0 + 1];
            && ValidName(s, SingleQuote, TwoScripts)
            && NameText(s, SingleQuote, TwoScripts) == [0x41] && Unescaped(s) == s
  {
    var s: Text := [BACKSLASH, LOWER_U, ARABIC_0, ARABIC_0, ARABIC_0 + 4, ARABIC_0 + 1];
    var h := s[2..6];
    assert h[0] == h[1] == ARABIC_0 && h[2] == ARABIC_0 + 4 && h[3] == ARABIC_0 + 1;
    assert HexCode(h, TwoScripts) == Some(0x41);
    assert s[6..] == [];
    assert Item(s, SingleQuote, TwoScripts) == Some((6, [0x41]));
    assert !IsAsciiHex(h[0]);
    UnescapedHex(s, TwoScripts);
    assert Unescaped([]) == [] && s[..6] == s;
  }

  lemma LiteralPair(s: Text, style: QuoteStyle, digit: CodeUnit -> Option<nat>)
    requires ValidName(s, style, digit)
    requires |s| > 1 && IsHigh(s[0]) && IsLow(s[1])
    ensures ValidName(s[2..], style, digit)
    ensures NameText(s, style, digit) == [s[0], s[1]] + NameText(s[2..], style, digit)
  {
    var t := s[1..];
    assert t[1..] == s[2..];
    ConsCons(s[0], s[1], NameText(s[2..], style, digit));
  }

  /** Well-formed UTF-16 stays well-formed: surrogates come in pairs, escaped or literal. */
  lemma {:induction false} NameTextWellFormed(s: Text, style: QuoteStyle, digit: CodeUnit -> Option<nat>)
    requires IsDigitTable(digit)
    requires ValidName(s, style, digit) && WellFormed(s)
    ensures WellFormed(NameText(s, style, digit))
    decreases |s|
  {
    if s == [] {
    } else if IsHigh(s[0]) {
      LiteralPair(s, style, digit);
      NameTextWellFormed(s[2..], style, digit);
      PairWellFormed(s[0], s[1]);
      WellFormedConcat([s[0], s[1]], NameText(s[2..], style, digit));
    } else {
      var (n, text) := Item(s, style, digit).value;
      ItemIsPlain(s, style, digit);
      WellFormedSuffix(s, n);
      NameTextWellFormed(s[n..], style, digit);
      WellFormedConcat(text, NameText(s[n..], style, digit));
    }
  }

  lemma PairWellFormed(high: CodeUnit, low: CodeUnit)
    requires IsHigh(high) && IsLow(low)
    ensures WellFormed([high, low])
  {
    assert [high, low][2..] == [];
  }

  lemma HexEscapeIsPlain(s: Text, digit: CodeUnit -> Option<nat>)
    requires IsDigitTable(digit)
    requires HexEscape(s, digit).Some?
    ensures forall k :: 0 <= k < 6 ==> !IsSurrogate(s[k])
  {
    var h := s[2..6];
    assert HexCode(h, digit).Some?;
    forall k | 2 <= k < 6
      ensures !IsSurrogate(s[k])
    {
      assert s[k] == h[k - 2] && HexValue(h[k - 2], digit).Some?;
    }
  }

  lemma ItemIsPlain(s: Text, style: QuoteStyle, digit: CodeUnit -> Option<nat>)
    requires IsDigitTable(digit)
    requires s != [] && Item(s, style, digit).Some? && !IsSurrogate(s[0])
    ensures var (n, text) := Item(s, style, digit).value;
            WellFormed(text) && forall k :: 0 <= k < n ==> !IsSurrogate(s[k])
  {
    var (n, text) := Item(s, style, digit).value;
    if n >= 6 {
      HexEscapeIsPlain(s, digit);
    }
    if n < 12 {
      assert |text| == 1 && text[1..] == [];
    } else {
      PairWellFormed(text[0], text[1]);
      HexEscapeIsPlain(s[6..], digit);
      assert forall k :: 6 <= k < 12 ==> s[k] == s[6..][k - 6];
    }
  }

  lemma {:induction false} WellFormedSuffix(s: Text, n: nat)
    requires n <= |s| && WellFormed(s)
    requires forall k :: 0 <= k < n ==> !IsSurrogate(s[k])
    ensures WellFormed(s[n..])
  {
    if n == 0 {
      assert s[0..] == s;
    } else {
      WellFormedSuffix(s[1..], n - 1);
      assert s[1..][n - 1..] == s[n..];
    }
  }
}
