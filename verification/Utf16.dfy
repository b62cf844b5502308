/** UTF-16 text and its Unicode scalar values. */
module Utf16 {
  import opened JsonValue

  predicate IsHigh(u: CodeUnit) {
    0xD800 <= u <= 0xDBFF
  }

  predicate IsLow(u: CodeUnit) {
    0xDC00 <= u <= 0xDFFF
  }

  predicate IsSurrogate(u: CodeUnit) {
    0xD800 <= u <= 0xDFFF
  }

  /** Every high surrogate is followed by a low one, and every low one follows a high one. */
  predicate WellFormed(s: Text) {
    if s == [] then true
    else if IsHigh(s[0]) then |s| > 1 && IsLow(s[1]) && WellFormed(s[2..])
    else !IsLow(s[0]) && WellFormed(s[1..])
  }

  function ScalarOf(high: CodeUnit, low: CodeUnit): int {
    0x10000 + (high - 0xD800) * 0x400 + (low - 0xDC00)
  }

  function Decode(s: Text): seq<int>
    requires WellFormed(s)
  {
    if s == [] then []
    else if IsHigh(s[0]) then [ScalarOf(s[0], s[1])] + Decode(s[2..])
    else [s[0]] + Decode(s[1..])
  }

  lemma {:induction false} WellFormedConcat(a: Text, b: Text)
    requires WellFormed(a) && WellFormed(b)
    ensures WellFormed(a + b)
  {
    if a == [] {
      assert a + b == b;
    } else if IsHigh(a[0]) {
      assert (a + b)[2..] == a[2..] + b;
      WellFormedConcat(a[2..], b);
    } else {
      assert (a + b)[1..] == a[1..] + b;
      WellFormedConcat(a[1..], b);
    }
  }

  // ---------------------------------------------------------------------
  // Encoding
  // ---------------------------------------------------------------------

  predicate IsScalar(c: int) {
    0 <= c < 0xD800 || 0xE000 <= c < 0x11_0000
  }

  /** Section 2.1 of RFC 2781. */
  function EncodeScalar(c: int): Text
    requires IsScalar(c)
  {
    if c < 0x1_0000 then [c] else [0xD800 + (c - 0x1_0000) / 0x400, 0xDC00 + (c - 0x1_0000) % 0x400]
  }

  function Encode(scalars: seq<int>): Text
    requires forall i :: 0 <= i < |scalars| ==> IsScalar(scalars[i])
  {
    if scalars == [] then [] else EncodeScalar(scalars[0]) + Encode(scalars[1..])
  }

  lemma DecodeFirst(c: int, rest: Text)
    requires IsScalar(c) && WellFormed(rest)
    ensures WellFormed(EncodeScalar(c) + rest) && Decode(EncodeScalar(c) + rest) == [c] + Decode(rest)
  {
    var s := EncodeScalar(c) + rest;
    if c < 0x1_0000 {
      assert s[1..] == rest;
    } else {
      assert s[2..] == rest;
    }
  }

  /** Sequences of scalar values are encoded as well-formed text that decodes to them. */
  lemma {:induction false} DecodeOfEncode(scalars: seq<int>)
    requires forall i :: 0 <= i < |scalars| ==> IsScalar(scalars[i])
    ensures WellFormed(Encode(scalars)) && Decode(Encode(scalars)) == scalars
  {
    if scalars != [] {
      DecodeOfEncode(scalars[1..]);
      DecodeFirst(scalars[0], Encode(scalars[1..]));
      assert scalars == [scalars[0]] + scalars[1..];
    }
  }

  lemma PairIsEncoded(high: CodeUnit, low: CodeUnit)
    requires IsHigh(high) && IsLow(low)
    ensures IsScalar(ScalarOf(high, low)) && EncodeScalar(ScalarOf(high, low)) == [high, low]
  {
  }

  lemma EncodeFirst(c: int, rest: seq<int>)
    requires IsScalar(c) && forall i :: 0 <= i < |rest| ==> IsScalar(rest[i])
    ensures forall i :: 0 <= i < |[c] + rest| ==> IsScalar(([c] + rest)[i])
    ensures Encode([c] + rest) == EncodeScalar(c) + Encode(rest)
  {
    assert ([c] + rest)[1..] == rest;
  }

  /** Every well-formed text is the encoding of the scalar values it decodes to. */
  lemma {:induction false} EncodeOfDecode(s: Text)
    requires WellFormed(s)
    ensures forall i :: 0 <= i < |Decode(s)| ==> IsScalar(Decode(s)[i])
    ensures Encode(Decode(s)) == s
    decreases |s|
  {
    if s != [] {
      var n := if IsHigh(s[0]) then 2 else 1;
      EncodeOfDecode(s[n..]);
      if n == 2 {
        PairIsEncoded(s[0], s[1]);
      }
      EncodeFirst(Decode(s)[0], Decode(s[n..]));
      assert s == s[..n] + s[n..];
    }
  }
}
