/** String comparison in filters (section 2.3.5.2.2 of RFC 9535): scalar-value order computed on code units. */
module StringOrder {
  import opened JsonValue
  import opened Utf16

  /** Lexicographic order: a proper prefix is less, otherwise the first difference decides. */
  predicate LexLess(a: seq<int>, b: seq<int>) {
    b != [] && (a == [] || a[0] < b[0] || (a[0] == b[0] && LexLess(a[1..], b[1..])))
  }

  lemma {:induction false} LexIrreflexive(a: seq<int>)
    ensures !LexLess(a, a)
  {
    if a != [] {
      LexIrreflexive(a[1..]);
    }
  }

  lemma {:induction false} LexTransitive(a: seq<int>, b: seq<int>, c: seq<int>)
    requires LexLess(a, b) && LexLess(b, c)
    ensures LexLess(a, c)
  {
    if a != [] && a[0] == b[0] == c[0] {
      LexTransitive(a[1..], b[1..], c[1..]);
    }
  }

  lemma {:induction false} LexConnected(a: seq<int>, b: seq<int>)
    requires a != b
    ensures LexLess(a, b) || LexLess(b, a)
  {
    if a != [] && b != [] && a[0] == b[0] {
      assert a == [a[0]] + a[1..] && b == [b[0]] + b[1..];
      LexConnected(a[1..], b[1..]);
    }
  }

  // ---------------------------------------------------------------------
  // The comparison
  // ---------------------------------------------------------------------

  /** Surrogates are lifted above the BMP. */
  function Rank(c: CodeUnit): int {
    if 0xD800 <= c <= 0xDFFF then c + 0x10000 else c
  }

  /** Index of the first difference, or the length of the shorter text (std::ranges::mismatch). */
  method Mismatch(lhs: Text, rhs: Text) returns (n: nat)
    ensures n <= |lhs| && n <= |rhs| && lhs[..n] == rhs[..n]
    ensures n == |lhs| || n == |rhs| || lhs[n] != rhs[n]
  {
    n := 0;
    while n < |lhs| && n < |rhs| && lhs[n] == rhs[n]
      invariant n <= |lhs| && n <= |rhs| && lhs[..n] == rhs[..n]
    {
      n := n + 1;
    }
  }

  method LessByScalarValue(lhs: Text, rhs: Text) returns (less: bool)
    ensures less <==> Less(lhs, rhs)
    ensures WellFormed(lhs) && WellFormed(rhs) ==> (less <==> LexLess(Decode(lhs), Decode(rhs)))
  {
    var n := Mismatch(lhs, rhs);
    FirstDifferenceDecides(lhs, rhs, n);
    if WellFormed(lhs) && WellFormed(rhs) {
      LessIsScalarOrder(lhs, rhs);
    }
    if n == |rhs| {
      return false;
    }
    if n == |lhs| {
      return true;
    }
    return Rank(lhs[n]) < Rank(rhs[n]);
  }

  function Ranks(s: Text): (r: seq<int>)
    ensures |r| == |s| && forall i :: 0 <= i < |s| ==> r[i] == Rank(s[i])
  {
    seq(|s|, i requires 0 <= i < |s| => Rank(s[i]))
  }

  /** The relation the comparison decides. */
  predicate Less(lhs: Text, rhs: Text) {
    LexLess(Ranks(lhs), Ranks(rhs))
  }

  lemma {:induction false} FirstDifferenceDecides(lhs: Text, rhs: Text, n: nat)
    requires n <= |lhs| && n <= |rhs| && lhs[..n] == rhs[..n]
    requires n == |lhs| || n == |rhs| || lhs[n] != rhs[n]
    ensures Less(lhs, rhs) <==> n < |rhs| && (n == |lhs| || Rank(lhs[n]) < Rank(rhs[n]))
  {
    if n > 0 {
      assert lhs[0] == lhs[..n][0] == rhs[..n][0] == rhs[0];
      assert lhs[1..][..n - 1] == lhs[..n][1..] == rhs[..n][1..] == rhs[1..][..n - 1];
      assert Ranks(lhs)[1..] == Ranks(lhs[1..]) && Ranks(rhs)[1..] == Ranks(rhs[1..]);
      FirstDifferenceDecides(lhs[1..], rhs[1..], n - 1);
    }
  }

  lemma LessTail(lhs: Text, rhs: Text, n: nat)
    requires n <= |lhs| && n <= |rhs| && lhs[..n] == rhs[..n]
    ensures Less(lhs, rhs) <==> Less(lhs[n..], rhs[n..])
    decreases n
  {
    if n == 0 {
      assert lhs[0..] == lhs && rhs[0..] == rhs;
    } else {
      assert lhs[0] == lhs[..n][0] == rhs[..n][0] == rhs[0];
      assert lhs[1..][..n - 1] == lhs[..n][1..] == rhs[..n][1..] == rhs[1..][..n - 1];
      assert Ranks(lhs)[1..] == Ranks(lhs[1..]) && Ranks(rhs)[1..] == Ranks(rhs[1..]);
      assert lhs[1..][n - 1..] == lhs[n..] && rhs[1..][n - 1..] == rhs[n..];
      LessTail(lhs[1..], rhs[1..], n - 1);
    }
  }

  /** On well-formed text the comparison is the order of the decoded Unicode scalar values. */
  lemma {:induction false} LessIsScalarOrder(lhs: Text, rhs: Text)
    requires WellFormed(lhs) && WellFormed(rhs)
    ensures Less(lhs, rhs) <==> LexLess(Decode(lhs), Decode(rhs))
    decreases |lhs|
  {
    if lhs != [] && rhs != [] {
      var n := if IsHigh(lhs[0]) then 2 else 1;
      if lhs[0] == rhs[0] && (n == 2 ==> lhs[1] == rhs[1]) {
        assert lhs[..n] == rhs[..n];
        LessTail(lhs, rhs, n);
        LessIsScalarOrder(lhs[n..], rhs[n..]);
        assert Decode(lhs)[1..] == Decode(lhs[n..]) && Decode(rhs)[1..] == Decode(rhs[n..]);
      } else {
        FirstDifferenceDecides(lhs, rhs, if lhs[0] == rhs[0] then 1 else 0);
      }
    }
  }

  /** On all texts, well-formed or not, it is a strict total order. */
  lemma LessIsStrictTotalOrder(a: Text, b: Text, c: Text)
    ensures !Less(a, a)
    ensures Less(a, b) && Less(b, c) ==> Less(a, c)
    ensures Less(a, b) || Less(b, a) || a == b
    ensures !(Less(a, b) && Less(b, a))
  {
    LexIrreflexive(Ranks(a));
    if Less(a, b) && Less(b, c) {
      LexTransitive(Ranks(a), Ranks(b), Ranks(c));
    }
    if Less(a, b) && Less(b, a) {
      LexTransitive(Ranks(a), Ranks(b), Ranks(a));
    }
    if a != b {
      if Ranks(a) == Ranks(b) {
        assert forall i :: 0 <= i < |a| ==> Ranks(a)[i] == Ranks(b)[i] && a[i] == b[i];
      }
      LexConnected(Ranks(a), Ranks(b));
    }
  }
}
