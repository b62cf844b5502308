/** Canonical decimal text of a natural number (QString::number, std::to_chars). */
module Decimal {
  import opened JsonValue

  const ZERO: CodeUnit := 0x30
  const NINE: CodeUnit := 0x39

  predicate IsDigit(u: CodeUnit) {
    ZERO <= u <= NINE
  }

  predicate AllDigits(s: Text) {
    forall i :: 0 <= i < |s| ==> IsDigit(s[i])
  }

  function Digits(n: nat): (s: Text)
    ensures |s| > 0 && AllDigits(s)
    ensures s[0] == ZERO <==> n == 0
    ensures s[0] == ZERO ==> |s| == 1
  {
    if n < 10 then [ZERO + n] else Digits(n / 10) + [ZERO + n % 10]
  }

  function ValueOf(s: Text): nat
    requires AllDigits(s)
  {
    if s == [] then 0 else 10 * ValueOf(s[..|s| - 1]) + (s[|s| - 1] - ZERO)
  }

  lemma {:induction false} ValueOfDigits(n: nat)
    ensures ValueOf(Digits(n)) == n
  {
    if n >= 10 {
      var s := Digits(n);
      assert s[..|s| - 1] == Digits(n / 10);
      ValueOfDigits(n / 10);
    }
  }

  /** A digit string is the canonical text of its value exactly when it has no leading zero. */
  lemma {:induction false} DigitsOfValue(s: Text)
    requires s != [] && AllDigits(s)
    requires s[0] == ZERO ==> |s| == 1
    ensures Digits(ValueOf(s)) == s
  {
    var prefix := s[..|s| - 1];
    assert s == prefix + [s[|s| - 1]];
    if prefix != [] {
      DigitsOfValue(prefix);
      assert ValueOf(prefix) > 0;
    } else {
      assert ValueOf(prefix) == 0;
    }
  }

  lemma DigitsInjective(m: nat, n: nat)
    ensures Digits(m) == Digits(n) ==> m == n
  {
    ValueOfDigits(m);
    ValueOfDigits(n);
  }
}
