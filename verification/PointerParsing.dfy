/** The loops of the pointer parser and printer, proved against the codec's functions. */
module PointerParsing {
  import opened JsonValue
  import opened PointerEvaluation
  import opened PointerCodec
  import Decimal

  method ValidatePointerSyntax(data: Text) returns (error: Option<ParseError>)
    ensures error == SyntaxError(data)
    ensures error.None? <==> ValidPointer(data)
    ensures error == Some(MissingLeadingSlash) <==> data != [] && data[0] != '/' as int
  {
    if |data| == 0 {
      return None;
    }
    if data[0] != SLASH {
      return Some(MissingLeadingSlash);
    }
    var i := 1;
    while i < |data|
      invariant 1 <= i <= |data|
      invariant WellEscaped(data[1..]) <==> WellEscaped(data[i..])
    {
      assert data[i..][1..] == data[i + 1..];
      if data[i] != TILDE {
        i := i + 1;
        continue;
      }
      if i + 1 >= |data| || (data[i + 1] != DIGIT_0 && data[i + 1] != DIGIT_1) {
        return Some(InvalidEscapeSequence);
      }
      assert data[i..][2..] == data[i + 2..];
      i := i + 2;
    }
    return None;
  }

  lemma {:induction false} UnescapePlain(s: Text, n: nat)
    requires n <= |s|
    requires forall k :: 0 <= k < n ==> s[k] != TILDE
    ensures Unescape(s) == s[..n] + Unescape(s[n..])
  {
    if n > 0 {
      assert s[1..][n - 1..] == s[n..];
      UnescapePlain(s[1..], n - 1);
    } else {
      assert s[0..] == s;
    }
  }

  /** `dst[wr++] = u` */
  method PutUnit(dst: array<CodeUnit>, wr: nat, u: CodeUnit) returns (next: nat)
    requires wr < dst.Length
    modifies dst
    ensures next == wr + 1
    ensures dst[..next] == old(dst[..wr]) + [u]
  {
    dst[wr] := u;
    next := wr + 1;
  }

  /** One turn of the unescaping loop: the unit it writes and the text it leaves. */
  function UnescapeStep(s: Text): (CodeUnit, Text)
    requires s != []
  {
    if s[0] == TILDE && |s| > 1 && s[1] == DIGIT_0 then (TILDE, s[2..])
    else if s[0] == TILDE && |s| > 1 && s[1] == DIGIT_1 then (SLASH, s[2..])
    else (s[0], s[1..])
  }

  lemma UnescapeByStep(written: Text, s: Text)
    requires s != []
    ensures written + Unescape(s) == (written + [UnescapeStep(s).0]) + Unescape(UnescapeStep(s).1)
  {
  }

  method UnescapeInto(dst: array<CodeUnit>, token: Text, start: nat) returns (wr: nat)
    requires start <= |token| == dst.Length
    modifies dst
    ensures wr <= dst.Length
    ensures dst[..wr] == old(dst[..start]) + Unescape(token[start..])
  {
    wr := start;
    var rd := start;
    while rd < |token|
      invariant start <= wr <= rd <= |token|
      invariant dst[..wr] + Unescape(token[rd..]) == old(dst[..start]) + Unescape(token[start..])
    {
      ghost var rest := token[rd..];
      UnescapeByStep(dst[..wr], rest);
      var unit := token[rd];
      rd := rd + 1;
      if unit == TILDE && rd < |token| {
        if token[rd] == DIGIT_0 {
          rd := rd + 1;
        } else if token[rd] == DIGIT_1 {
          unit := SLASH;
          rd := rd + 1;
        }
      }
      assert UnescapeStep(rest) == (unit, token[rd..]);
      wr := PutUnit(dst, wr, unit);
    }
  }

  /** Copies up to the first '~', then unescapes into the same buffer; the text never grows. */
  method DecodeToken(token: Text) returns (decoded: Text)
    ensures decoded == Unescape(token)
  {
    var len := |token|;
    var firstTilde := 0;
    while firstTilde < len && token[firstTilde] != TILDE
      invariant 0 <= firstTilde <= len
      invariant forall k :: 0 <= k < firstTilde ==> token[k] != TILDE
    {
      firstTilde := firstTilde + 1;
    }
    UnescapePlain(token, firstTilde);
    if firstTilde == len {
      assert token[..len] == token;
      return token;
    }
    var dst := new CodeUnit[len](k => 0);
    forall k | 0 <= k < firstTilde {
      dst[k] := token[k];
    }
    assert dst[..firstTilde] == token[..firstTilde];
    var wr := UnescapeInto(dst, token, firstTilde);
    decoded := dst[..wr];
  }

  /** Recognises exactly the texts that spell an index: blanks, optional sign, digits, within 64 bits. */
  method ParseArrayIndex(s: Text) returns (ok: bool, out: nat)
    ensures forall i: nat :: SpellsIndex(s, i) <==> ok && i == out
    ensures ArrayIndex(s) == if ok then Some(out) else None
  {
    forall i: nat
      ensures ArrayIndex(s) == Some(i) <==> SpellsIndex(s, i)
    {
      ArrayIndexSpells(s, i);
    }
    if s == [] {
      return false, 0;
    }
    if s == [DIGIT_0] {
      return true, 0;
    }
    if s[0] == DIGIT_0 {
      return false, 0;
    }
    var value := ToLongLong(s);
    if value.None? || value.value < 0 {
      return false, 0;
    }
    return true, value.value;
  }

  method IndexOf(s: Text, u: CodeUnit, from: nat) returns (r: int)
    requires from <= |s|
    ensures r == -1 ==> u !in s[from..]
    ensures r != -1 ==> from <= r < |s| && s[r] == u && u !in s[from..r]
  {
    var i := from;
    while i < |s|
      invariant from <= i <= |s|
      invariant u !in s[from..i]
    {
      if s[i] == u {
        return i;
      }
      i := i + 1;
    }
    return -1;
  }

  method MakeToken(key: Text) returns (token: Token)
    ensures token == Classify(key)
  {
    var isIndex, idx := ParseArrayIndex(key);
    token := if isIndex then IndexToken(idx, key) else KeyToken(key);
  }

  function Segmented(s: Text): seq<Token> {
    ClassifyAll(UnescapeAll(Split(s)))
  }

  lemma LastSegment(done: seq<Token>, raw: Text)
    requires SLASH !in raw
    ensures done + Segmented(raw) == done + [Classify(Unescape(raw))]
  {
    SplitPlain(raw);
    assert Segmented(raw) == [Classify(Unescape(raw))];
  }

  lemma FirstSegment(done: seq<Token>, raw: Text, rest: Text)
    requires SLASH !in raw
    ensures done + Segmented(raw + [SLASH] + rest) == (done + [Classify(Unescape(raw))]) + Segmented(rest)
  {
    SplitPlain(raw);
    SplitConcat(raw, rest);
    SegmentsConcat(raw, Split(rest));
    Reassociate(done, Classify(Unescape(raw)), Segmented(rest));
  }

  lemma SegmentsConcat(raw: Text, rest: seq<Text>)
    ensures ClassifyAll(UnescapeAll([raw] + rest)) == [Classify(Unescape(raw))] + ClassifyAll(UnescapeAll(rest))
  {
  }

  lemma Reassociate(done: seq<Token>, token: Token, rest: seq<Token>)
    ensures done + ([token] + rest) == (done + [token]) + rest
  {
  }

  lemma CutAt(ptr: Text, begin: nat, end: nat)
    requires begin <= end < |ptr| && ptr[end] == SLASH
    ensures ptr[begin..] == ptr[begin..end] + [SLASH] + ptr[end + 1..]
  {
  }

  method Tokenize(ptr: Text) returns (tokens: seq<Token>)
    requires ptr != []
    ensures tokens == Segmented(ptr[1..])
  {
    tokens := [];
    var begin := 1;
    while true
      invariant 1 <= begin <= |ptr|
      invariant tokens + Segmented(ptr[begin..]) == Segmented(ptr[1..])
      decreases |ptr| - begin
    {
      var end := IndexOf(ptr, SLASH, begin);
      var atEnd := end == -1;
      var raw := if atEnd then ptr[begin..] else ptr[begin..end];
      var decoded := DecodeToken(raw);
      var token := MakeToken(decoded);
      if atEnd {
        LastSegment(tokens, raw);
        return tokens + [token];
      }
      CutAt(ptr, begin, end);
      FirstSegment(tokens, raw, ptr[end + 1..]);
      tokens := tokens + [token];
      begin := end + 1;
    }
  }

  method ParsePointer(ptr: Text) returns (r: Result<seq<Token>, ParseError>)
    ensures r == Parse(ptr)
  {
    var error := ValidatePointerSyntax(ptr);
    if error.Some? {
      return Err(error.value);
    }
    if ptr == [] {
      return Ok([]);
    }
    if |ptr| == 1 {
      assert ClassifyAll(Keys(ptr)) == [KeyToken([])];
      return Ok([KeyToken([])]);
    }
    var tokens := Tokenize(ptr);
    r := Ok(tokens);
  }

  lemma EscapeByStep(written: Text, key: Text)
    requires key != []
    ensures written + Escape(key) == (written + EscapeUnit(key[0])) + Escape(key[1..])
    ensures key[0] == TILDE ==> written + EscapeUnit(key[0]) == written + [TILDE] + [DIGIT_0]
    ensures key[0] == SLASH ==> written + EscapeUnit(key[0]) == written + [TILDE] + [DIGIT_1]
  {
  }

  method EscapeToken(token: Text) returns (out: Text)
    ensures out == Escape(token)
  {
    out := [];
    var i := 0;
    while i < |token|
      invariant 0 <= i <= |token|
      invariant out + Escape(token[i..]) == Escape(token)
    {
      EscapeByStep(out, token[i..]);
      assert token[i..][1..] == token[i + 1..];
      var c := token[i];
      if c == TILDE {
        out := out + [TILDE, DIGIT_0];
      } else if c == SLASH {
        out := out + [TILDE, DIGIT_1];
      } else {
        out := out + [c];
      }
      i := i + 1;
    }
  }

  // ---------------------------------------------------------------------
  // The single-buffer printer
  // ---------------------------------------------------------------------

  /** Room reserved for one token: its slash, and twice its key or the digits of its index. */
  function TokenCapacity(token: Token): nat {
    1 + if token.KeyToken? then 2 * |token.key| else |Decimal.Digits(token.index)|
  }

  function Capacity(tokens: seq<Token>): nat {
    if tokens == [] then 0 else TokenCapacity(tokens[0]) + Capacity(tokens[1..])
  }

  lemma {:induction false} CapacityConcat(a: seq<Token>, b: seq<Token>)
    ensures Capacity(a + b) == Capacity(a) + Capacity(b)
  {
    if a == [] {
      assert a + b == b;
    } else {
      assert (a + b)[0] == a[0] && (a + b)[1..] == a[1..] + b;
      CapacityConcat(a[1..], b);
    }
  }

  /** The printed text of one token, slash included. */
  function PrintToken(token: Token): Text {
    [SLASH] + if token.KeyToken? then Escape(token.key) else Decimal.Digits(token.index)
  }

  lemma {:induction false} EscapePlain(s: Text)
    requires TILDE !in s && SLASH !in s
    ensures Escape(s) == s
  {
    if s != [] {
      EscapePlain(s[1..]);
    }
  }

  lemma PrintOne(token: Token)
    ensures Print([token]) == PrintToken(token)
  {
    var text := Rendered(token);
    if token.IndexToken? {
      EscapePlain(text);
    }
    assert RenderedAll([token]) == [text];
    assert EscapeAll([text]) == [Escape(text)];
    assert Join([Escape(text)]) == [SLASH] + Escape(text) + Join([]);
    assert Print([token]) == [SLASH] + Escape(text);
  }

  lemma PrintConcat(a: seq<Token>, b: seq<Token>)
    ensures Print(a + b) == Print(a) + Print(b)
  {
    assert RenderedAll(a + b) == RenderedAll(a) + RenderedAll(b);
    EncodeConcat(RenderedAll(a), RenderedAll(b));
  }

  method WriteText(dst: array<CodeUnit>, wr: nat, text: Text) returns (next: nat)
    requires wr + |text| <= dst.Length
    modifies dst
    ensures next == wr + |text|
    ensures dst[..next] == old(dst[..wr]) + text
  {
    var i := 0;
    while i < |text|
      invariant 0 <= i <= |text|
      invariant dst[..wr + i] == old(dst[..wr]) + text[..i]
    {
      dst[wr + i] := text[i];
      i := i + 1;
    }
    next := wr + |text|;
  }

  method WriteEscaped(dst: array<CodeUnit>, start: nat, key: Text) returns (wr: nat)
    requires start + 2 * |key| <= dst.Length
    modifies dst
    ensures start <= wr <= start + 2 * |key|
    ensures dst[..wr] == old(dst[..start]) + Escape(key)
  {
    wr := start;
    var i := 0;
    while i < |key|
      invariant 0 <= i <= |key|
      invariant start <= wr <= start + 2 * i
      invariant dst[..wr] + Escape(key[i..]) == old(dst[..start]) + Escape(key)
    {
      assert key[i..][1..] == key[i + 1..];
      EscapeByStep(dst[..wr], key[i..]);
      if key[i] == TILDE {
        wr := PutUnit(dst, wr, TILDE);
        wr := PutUnit(dst, wr, DIGIT_0);
      } else if key[i] == SLASH {
        wr := PutUnit(dst, wr, TILDE);
        wr := PutUnit(dst, wr, DIGIT_1);
      } else {
        wr := PutUnit(dst, wr, key[i]);
      }
      i := i + 1;
    }
  }

  lemma OneMoreCapacity(tokens: seq<Token>, i: nat)
    requires i < |tokens|
    ensures Capacity(tokens[..i]) + TokenCapacity(tokens[i]) == Capacity(tokens[..i + 1]) <= Capacity(tokens)
  {
    var token := [tokens[i]];
    assert tokens[..i + 1] == tokens[..i] + token;
    CapacityConcat(tokens[..i], token);
    assert tokens == tokens[..i + 1] + tokens[i + 1..];
    CapacityConcat(tokens[..i + 1], tokens[i + 1..]);
    assert token[1..] == [];
  }

  lemma OneMorePrinted(tokens: seq<Token>, i: nat)
    requires i < |tokens|
    ensures Print(tokens[..i + 1]) == Print(tokens[..i]) + PrintToken(tokens[i])
  {
    assert tokens[..i + 1] == tokens[..i] + [tokens[i]];
    PrintConcat(tokens[..i], [tokens[i]]);
    PrintOne(tokens[i]);
  }

  method ComputeCapacity(tokens: seq<Token>) returns (cap: nat)
    ensures cap == Capacity(tokens)
  {
    cap := 0;
    var i := 0;
    while i < |tokens|
      invariant 0 <= i <= |tokens|
      invariant cap == Capacity(tokens[..i])
    {
      OneMoreCapacity(tokens, i);
      cap := cap + 1;
      if tokens[i].KeyToken? {
        cap := cap + |tokens[i].key| * 2;
      } else {
        cap := cap + |Decimal.Digits(tokens[i].index)|;
      }
      i := i + 1;
    }
    assert tokens[..|tokens|] == tokens;
  }

  method WriteToken(dst: array<CodeUnit>, start: nat, token: Token) returns (wr: nat)
    requires start + TokenCapacity(token) <= dst.Length
    modifies dst
    ensures wr <= start + TokenCapacity(token)
    ensures dst[..wr] == old(dst[..start]) + PrintToken(token)
  {
    wr := PutUnit(dst, start, SLASH);
    if token.KeyToken? {
      wr := WriteEscaped(dst, wr, token.key);
    } else {
      wr := WriteText(dst, wr, Decimal.Digits(token.index));
    }
  }

  /** One allocation of the computed capacity; no write ever leaves it. */
  method ToString(tokens: seq<Token>) returns (text: Text)
    ensures text == Print(tokens)
  {
    if tokens == [] {
      return [];
    }
    var cap := ComputeCapacity(tokens);
    var dst := new CodeUnit[cap](k => 0);
    var wr: nat := 0;
    var i := 0;
    assert tokens[..0] == [];
    while i < |tokens|
      invariant 0 <= i <= |tokens|
      invariant wr <= Capacity(tokens[..i]) <= dst.Length == Capacity(tokens)
      invariant dst[..wr] == Print(tokens[..i])
    {
      OneMoreCapacity(tokens, i);
      OneMorePrinted(tokens, i);
      wr := WriteToken(dst, wr, tokens[i]);
      i := i + 1;
    }
    assert tokens[..|tokens|] == tokens;
    text := dst[..wr];
  }

  // ---------------------------------------------------------------------
  // Composition
  // ---------------------------------------------------------------------

  method AppendedKey(base: seq<Token>, key: Text) returns (out: seq<Token>)
    ensures out == base + [Classify(key)]
    ensures Canonical(base) ==> (Canonical(out) <==> (ArrayIndex(key).Some? ==> Decimal.AllDigits(key)))
    ensures ArrayIndex(key).None? ==> Print(out) == Print(base) + [SLASH] + Escape(key)
  {
    var token := MakeToken(key);
    out := base + [token];
    PrintConcat(base, [token]);
    PrintOne(token);
    if Canonical(base) {
      AppendCanonical(base, key);
    }
  }

  lemma AppendCanonical(base: seq<Token>, key: Text)
    requires Canonical(base)
    ensures Canonical(base + [Classify(key)]) <==> (ArrayIndex(key).Some? ==> Decimal.AllDigits(key))
  {
    var out := base + [Classify(key)];
    if Decimal.AllDigits(key) {
      PlainArrayIndex(key);
    }
    assert out[|base|] == Classify(key);
    assert Canonical(out) <==> CanonicalToken(out[|base|]);
  }

  /** A negative index cannot address an array: its text names an object member. */
  method AppendedIndex(base: seq<Token>, index: int) returns (out: seq<Token>)
    requires index <= INT64_MAX
    ensures Canonical(base) ==> (Canonical(out))
    ensures index >= 0 ==> out == base + [IndexToken(index, Decimal.Digits(index))]
    ensures index < 0 ==> out == base + [KeyToken([HYPHEN] + Decimal.Digits(-index))]
  {
    if index >= 0 {
      out := base + [IndexToken(index, Decimal.Digits(index))];
    } else {
      var text := [HYPHEN] + Decimal.Digits(-index);
      out := base + [KeyToken(text)];
      NegativeIsNoIndex(-index);
    }
  }

  lemma NegativeIsNoIndex(n: nat)
    requires n > 0
    ensures ArrayIndex([HYPHEN] + Decimal.Digits(n)).None?
  {
    var s := [HYPHEN] + Decimal.Digits(n);
    TrimDigits(s);
    assert s[1..] == Decimal.Digits(n);
    Decimal.ValueOfDigits(n);
  }
}
