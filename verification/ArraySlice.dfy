/** Array slices (section 2.3.4 of RFC 9535): 64-bit evaluation with sentinels, and the parser's clamping. */
module ArraySlice {
  import opened JsonValue

  /** qsizetype: every arithmetic result below is proved to fit. */
  newtype Int64 = x: int | -0x8000_0000_0000_0000 <= x <= 0x7FFF_FFFF_FFFF_FFFF

  const SENTINEL: Int64 := 0x7FFF_FFFF_FFFF_FFFF
  const INT64_MIN: Int64 := -0x8000_0000_0000_0000
  const INT32_MAX: int := 0x7FFF_FFFF
  const INT32_MIN: int := -0x8000_0000
  const SAFE_INT: int := 9007199254740992
  const LENGTH_LIMIT: int := 0x8000_0000

  datatype Slice = Slice(start: Int64, end: Int64, step: Int64)

  /** A slice selector with exact integers, as written; `None` is an omitted part. */
  datatype Selector = Selector(start: Option<int>, end: Option<int>, step: int)

  // ---------------------------------------------------------------------
  // Section 2.3.4.2.2 of RFC 9535
  // ---------------------------------------------------------------------

  function Normalise(i: int, len: nat): int {
    if i >= 0 then i else len + i
  }

  function Clip(i: int, low: int, high: int): int {
    if i < low then low else if i > high then high else i
  }

  function FirstBound(s: Selector, len: nat): int {
    if s.step >= 0 then Clip(Normalise(s.start.GetOr(0), len), 0, len)
    else Clip(Normalise(s.start.GetOr(len - 1), len), -1, len - 1)
  }

  function LastBound(s: Selector, len: nat): int {
    if s.step >= 0 then Clip(Normalise(s.end.GetOr(len), len), 0, len)
    else Clip(Normalise(s.end.GetOr(-(len as int) - 1), len), -1, len - 1)
  }

  function Ascending(i: int, upper: int, step: int): seq<int>
    requires step > 0
    decreases upper - i
  {
    if i < upper then [i] + Ascending(i + step, upper, step) else []
  }

  function Descending(i: int, lower: int, step: int): seq<int>
    requires step < 0
    decreases i - lower
  {
    if lower < i then [i] + Descending(i + step, lower, step) else []
  }

  /** The selected indices, in selection order. */
  function Indices(s: Selector, len: nat): seq<int> {
    if s.step == 0 then []
    else if s.step > 0 then Ascending(FirstBound(s, len), LastBound(s, len), s.step)
    else Descending(FirstBound(s, len), LastBound(s, len), s.step)
  }

  predicate InRange(indices: seq<int>, len: nat) {
    forall k :: 0 <= k < |indices| ==> 0 <= indices[k] < len
  }

  function Pick(items: seq<Json>, indices: seq<int>): (r: seq<Json>)
    requires InRange(indices, |items|)
    ensures |r| == |indices| && forall k :: 0 <= k < |r| ==> r[k] == items[indices[k]]
  {
    seq(|indices|, k requires 0 <= k < |indices| => items[indices[k]])
  }

  function Selected(items: seq<Json>, s: Selector): seq<Json> {
    IndicesInRange(s, |items|);
    Pick(items, Indices(s, |items|))
  }

  predicate Increasing(s: seq<int>) {
    forall a, b :: 0 <= a < b < |s| ==> s[a] < s[b]
  }

  predicate Decreasing(s: seq<int>) {
    forall a, b :: 0 <= a < b < |s| ==> s[a] > s[b]
  }

  /** The ascending walk meets exactly the indices in range at a multiple of the step from its start, in order. */
  lemma {:induction false} AscendingMeets(i: int, upper: int, step: int)
    requires step > 0
    ensures forall j :: j in Ascending(i, upper, step) <==> i <= j < upper && (j - i) % step == 0
    ensures Increasing(Ascending(i, upper, step))
    decreases upper - i
  {
    if i < upper {
      var rest := Ascending(i + step, upper, step);
      AscendingMeets(i + step, upper, step);
      forall j
        ensures j in Ascending(i, upper, step) <==> i <= j < upper && (j - i) % step == 0
      {
        StepsFrom(i, j, step);
        InFirstOrRest(j, i, rest);
      }
      forall b | 0 <= b < |rest|
        ensures i < rest[b]
      {
        assert rest[b] in rest;
      }
      var all := [i] + rest;
      assert forall b :: 0 < b < |all| ==> all[b] == rest[b - 1];
    }
  }

  lemma {:induction false} DescendingMeets(i: int, lower: int, step: int)
    requires step < 0
    ensures forall j :: j in Descending(i, lower, step) <==> lower < j <= i && (i - j) % -step == 0
    ensures Decreasing(Descending(i, lower, step))
    decreases i - lower
  {
    if lower < i {
      var rest := Descending(i + step, lower, step);
      DescendingMeets(i + step, lower, step);
      forall j
        ensures j in Descending(i, lower, step) <==> lower < j <= i && (i - j) % -step == 0
      {
        StepsBack(i, j, step);
        InFirstOrRest(j, i, rest);
      }
      forall b | 0 <= b < |rest|
        ensures i > rest[b]
      {
        assert rest[b] in rest;
      }
      var all := [i] + rest;
      assert forall b :: 0 < b < |all| ==> all[b] == rest[b - 1];
    }
  }

  lemma InFirstOrRest(j: int, i: int, rest: seq<int>)
    ensures j in [i] + rest <==> j == i || j in rest
  {
  }

  lemma StepsBack(i: int, j: int, step: int)
    requires step < 0
    ensures j <= i && (i - j) % -step == 0 <==> j == i || (j <= i + step && (i + step - j) % -step == 0)
  {
    StepsFrom(-i, -j, -step);
    assert -j - (-i) == i - j && -j - (-i + -step) == i + step - j;
  }

  /** A later stop of a walk is the start or a stop of the walk from one step on. */
  lemma StepsFrom(i: int, j: int, step: int)
    requires step > 0
    ensures i <= j && (j - i) % step == 0 <==> j == i || (i + step <= j && (j - (i + step)) % step == 0)
  {
    var d := j - i;
    if i <= j && d != 0 {
      assert d % step == (d - step) % step by {
        var q, r := d / step, d % step;
        assert d - step == (q - 1) * step + r;
        ModUnique(d - step, step, q - 1, r);
      }
      if d < step {
        ModUnique(d, step, 0, d);
      }
    }
  }

  lemma MultipleIsLarge(k: int, d: int)
    requires d > 0 && k >= 1
    ensures k * d >= d
  {
    assert k * d == (k - 1) * d + d;
  }

  lemma ModUnique(n: int, d: int, q: int, r: int)
    requires d > 0 && 0 <= r < d && n == q * d + r
    ensures n % d == r
  {
    var p := n / d;
    assert n == p * d + n % d;
    if q > p {
      MultipleIsLarge(q - p, d);
    } else if q < p {
      MultipleIsLarge(p - q, d);
    }
  }

  lemma IndicesInRange(s: Selector, len: nat)
    ensures InRange(Indices(s, len), len)
  {
    var indices := Indices(s, len);
    if s.step > 0 {
      AscendingMeets(FirstBound(s, len), LastBound(s, len), s.step);
    } else if s.step < 0 {
      DescendingMeets(FirstBound(s, len), LastBound(s, len), s.step);
    }
    assert forall k :: 0 <= k < |indices| ==> indices[k] in indices;
  }

  /** A position as it is written: from the start, or negative from the end. */
  function Counted(i: int, len: nat): int {
    if i < 0 then i + len else i
  }

  /**
   * Which elements a slice selects, without the bounds: those from the start on
   * (the first, or backwards the last, when it is omitted or lies before the
   * first) that come before the end, a multiple of the step away.
   */
  predicate Selects(s: Selector, len: nat, j: int) {
    && 0 <= j < len
    && if s.step > 0 then
         var first := if s.start.None? || Counted(s.start.value, len) < 0 then 0 else Counted(s.start.value, len);
         && first <= j && (j - first) % s.step == 0
         && (s.end.Some? ==> j < Counted(s.end.value, len))
       else
         && s.step < 0
         && var first := if s.start.None? || Counted(s.start.value, len) >= len then len - 1
                         else Counted(s.start.value, len);
         && j <= first && (first - j) % -s.step == 0
         && (s.end.Some? ==> j > Counted(s.end.value, len))
  }

  /** Each of them once, upwards for a positive step and downwards for a negative one. */
  lemma SelectionMeets(s: Selector, len: nat)
    ensures forall j :: j in Indices(s, len) <==> Selects(s, len, j)
    ensures s.step > 0 ==> Increasing(Indices(s, len))
    ensures s.step < 0 ==> Decreasing(Indices(s, len))
  {
    if s.step > 0 {
      AscendingMeets(FirstBound(s, len), LastBound(s, len), s.step);
    } else if s.step < 0 {
      DescendingMeets(FirstBound(s, len), LastBound(s, len), s.step);
    }
  }

  // ---------------------------------------------------------------------
  // The evaluator
  // ---------------------------------------------------------------------

  function OfSentinel(x: Int64): Option<int> {
    if x == SENTINEL then None else Some(x as int)
  }

  /** What a stored slice stands for. */
  function Meaning(s: Slice): Selector {
    Selector(OfSentinel(s.start), OfSentinel(s.end), s.step as int)
  }

  method WalkUp(items: seq<Json>, start: Int64, stop: Int64, step: Int64) returns (out: seq<Json>)
    requires |items| < LENGTH_LIMIT && step > 0
    requires 0 <= start as int <= |items| && 0 <= stop as int <= |items|
    requires InRange(Ascending(start as int, stop as int, step as int), |items|)
    ensures out == Pick(items, Ascending(start as int, stop as int, step as int))
  {
    out := [];
    var i := start;
    ghost var all := Ascending(start as int, stop as int, step as int);
    ghost var done: seq<int> := [];
    while i < stop
      invariant start <= i
      invariant all == done + Ascending(i as int, stop as int, step as int)
      invariant |out| == |done| && forall k :: 0 <= k < |out| ==> 0 <= done[k] < |items| && out[k] == items[done[k]]
      decreases stop as int - i as int
    {
      ghost var rest := Ascending(i as int + step as int, stop as int, step as int);
      assert all == (done + [i as int]) + rest;
      if 0 <= i && i < |items| as Int64 {
        out := out + [items[i]];
      }
      done := done + [i as int];
      // i + step itself may not fit 64 bits.
      var remaining := stop - i;
      if remaining <= step {
        assert all == done;
        return;
      }
      i := i + step;
    }
    assert all == done;
  }

  method WalkDown(items: seq<Json>, start: Int64, stop: Int64, step: Int64) returns (out: seq<Json>)
    requires |items| < LENGTH_LIMIT && step < 0
    requires -1 <= start as int < |items| && -1 <= stop as int < |items|
    requires InRange(Descending(start as int, stop as int, step as int), |items|)
    ensures out == Pick(items, Descending(start as int, stop as int, step as int))
  {
    out := [];
    var i := start;
    ghost var all := Descending(start as int, stop as int, step as int);
    ghost var done: seq<int> := [];
    while i > stop
      invariant i <= start
      invariant all == done + Descending(i as int, stop as int, step as int)
      invariant |out| == |done| && forall k :: 0 <= k < |out| ==> 0 <= done[k] < |items| && out[k] == items[done[k]]
      decreases i as int - stop as int
    {
      ghost var rest := Descending(i as int + step as int, stop as int, step as int);
      assert all == (done + [i as int]) + rest;
      if 0 <= i && i < |items| as Int64 {
        out := out + [items[i]];
      }
      done := done + [i as int];
      // Underflow-safe: no valid index is left once step <= stop - i.
      var delta := stop - i;
      if step <= delta {
        assert all == done;
        return;
      }
      i := i + step;
    }
    assert all == done;
  }

  method EvalSlice(items: seq<Json>, s: Slice) returns (out: seq<Json>)
    requires |items| < LENGTH_LIMIT
    ensures out == Selected(items, Meaning(s))
  {
    var len := |items| as Int64;
    IndicesInRange(Meaning(s), |items|);
    if s.step == 0 {
      return [];
    }
    if s.step > 0 {
      var start := if s.start == SENTINEL then 0 else s.start;
      var stop := if s.end == SENTINEL then len else s.end;
      if start < 0 {
        start := start + len;
      }
      if stop < 0 {
        stop := stop + len;
      }
      if start < 0 {
        start := 0;
      }
      if start > len {
        start := len;
      }
      if stop < 0 {
        stop := 0;
      }
      if stop > len {
        stop := len;
      }
      assert start as int == FirstBound(Meaning(s), |items|) && stop as int == LastBound(Meaning(s), |items|);
      out := WalkUp(items, start, stop, s.step);
    } else {
      var start := if s.start == SENTINEL then len - 1 else s.start;
      var stop := if s.end == SENTINEL then -1 else s.end;
      if start < 0 {
        start := start + len;
      }
      if stop < 0 {
        stop := stop + len;
      }
      if start < -1 {
        start := -1;
      }
      if start >= len {
        start := len - 1;
      }
      if stop < -1 {
        stop := -1;
      }
      if stop >= len {
        stop := len - 1;
      }
      // Restore the sentinel after the adjustment of negative values.
      if s.end == SENTINEL {
        stop := -1;
      }
      assert start as int == FirstBound(Meaning(s), |items|) && stop as int == LastBound(Meaning(s), |items|);
      out := WalkDown(items, start, stop, s.step);
    }
  }

  // ---------------------------------------------------------------------
  // The parser's clamping
  // ---------------------------------------------------------------------

  /** Literals must be safe integers; beyond 32 bits they become the extreme 64-bit values. */
  function ClampLiteral(v: int): Option<Int64> {
    if v <= -SAFE_INT || v >= SAFE_INT then None
    else if v < INT32_MIN then Some(INT64_MIN)
    else if v > INT32_MAX then Some(SENTINEL)
    else Some(v as Int64)
  }

  predicate SafeLiteral(v: Option<int>) {
    v.Some? ==> -SAFE_INT < v.value < SAFE_INT
  }

  method StrictParse(literal: Option<int>) returns (ok: bool, out: Option<Int64>)
    ensures ok <==> SafeLiteral(literal)
    ensures ok ==> out == if literal.None? then None else ClampLiteral(literal.value)
  {
    if literal.None? {
      return true, None;
    }
    var v := literal.value;
    if v > SENTINEL as int || v < INT64_MIN as int {
      return false, None;
    }
    var v64 := v as Int64;
    if v64 <= -(SAFE_INT as Int64) || v64 >= SAFE_INT as Int64 {
      return false, None;
    }
    if v64 < INT32_MIN as Int64 {
      out := Some(INT64_MIN);
    } else if v64 > INT32_MAX as Int64 {
      out := Some(SENTINEL);
    } else {
      out := Some(v64);
    }
    ok := true;
  }

  /** The slice stored for a selector, given the integer literals of its parts. */
  function Stored(start: Option<int>, end: Option<int>, step: Option<int>): Option<Slice> {
    if SafeLiteral(start) && SafeLiteral(end) && SafeLiteral(step) then
      Some(Slice(if start.None? then SENTINEL else ClampLiteral(start.value).value,
                 if end.None? then SENTINEL else ClampLiteral(end.value).value,
                 if step.None? then 1 else ClampLiteral(step.value).value))
    else None
  }

  method MakeSlice(start: Option<int>, end: Option<int>, step: Option<int>) returns (slice: Option<Slice>)
    ensures slice == Stored(start, end, step)
    ensures slice.Some? <==> forall part :: part in [start, end, step] && part.Some? ==>
                               -0x20_0000_0000_0000 < part.value < 0x20_0000_0000_0000
  {
    var okStart, startOpt := StrictParse(start);
    if !okStart {
      return None;
    }
    var okEnd, endOpt := StrictParse(end);
    if !okEnd {
      return None;
    }
    var okStep, stepOpt := StrictParse(step);
    if !okStep {
      return None;
    }
    return Some(Slice(if startOpt.Some? then startOpt.value else SENTINEL,
                      if endOpt.Some? then endOpt.value else SENTINEL,
                      if stepOpt.Some? then stepOpt.value else 1));
  }

  /** The clamped first bound reads as an omitted one, and something lies before the last bound. */
  predicate ClampExposes(s: Selector, len: nat) {
    || (s.step > 0 && s.start.Some? && s.start.value > 0x7FFF_FFFF && LastBound(s, len) > 0)
    || (s.step < 0 && s.end.Some? && s.end.value > 0x7FFF_FFFF && FirstBound(s, len) >= 0)
  }

  lemma LongAscending(i: int, upper: int, step: int)
    requires step > 0 && upper - i <= step
    ensures Ascending(i, upper, step) == if i < upper then [i] else []
  {
  }

  lemma LongDescending(i: int, lower: int, step: int)
    requires step < 0 && i - lower <= -step
    ensures Descending(i, lower, step) == if lower < i then [i] else []
  {
  }

  /**
   * Clamping selects what the exact selector selects, except when a start (or,
   * backwards, an end) past 2^31 - 1 turns into the value that means "omitted":
   * then nothing should be selected and the evaluator selects something.
   */
  lemma ClampingOutcome(items: seq<Json>, start: Option<int>, end: Option<int>, step: Option<int>)
    requires |items| < LENGTH_LIMIT
    requires Stored(start, end, step).Some?
    ensures var exact := Selector(start, end, step.GetOr(1));
            Selected(items, Meaning(Stored(start, end, step).value)) == Selected(items, exact)
            <==> !ClampExposes(exact, |items|)
  {
    var len := |items|;
    var exact := Selector(start, end, step.GetOr(1));
    var kept := Meaning(Stored(start, end, step).value);
    var a, b := FirstBound(exact, len), LastBound(exact, len);
    var c, d := FirstBound(kept, len), LastBound(kept, len);
    IndicesInRange(exact, len);
    IndicesInRange(kept, len);
    if exact.step > 0 {
      ClampedAscending(a, b, exact.step, kept.step);
      assert d == b;
      if ClampExposes(exact, len) {
        assert Indices(exact, len) == [] && c == 0 < d;
        assert Indices(kept, len) != [];
      } else if c != a {
        assert Indices(exact, len) == [] && Indices(kept, len) == [];
      } else {
        assert Indices(kept, len) == Indices(exact, len);
      }
    } else if exact.step < 0 {
      ClampedDescending(a, b, exact.step, kept.step);
      assert c == a;
      if ClampExposes(exact, len) {
        assert Indices(exact, len) == [] && d == -1 < c;
        assert Indices(kept, len) != [];
      } else if d != b {
        assert Indices(exact, len) == [] && Indices(kept, len) == [];
      } else {
        assert Indices(kept, len) == Indices(exact, len);
      }
    }
  }

  lemma ClampedAscending(a: int, b: int, step: int, kept: int)
    requires step > 0 && b - a < LENGTH_LIMIT
    requires kept == if step > INT32_MAX then SENTINEL as int else step
    ensures Ascending(a, b, kept) == Ascending(a, b, step)
  {
    if step > INT32_MAX {
      LongAscending(a, b, step);
      LongAscending(a, b, kept);
    }
  }

  lemma ClampedDescending(a: int, b: int, step: int, kept: int)
    requires step < 0 && a - b < LENGTH_LIMIT
    requires kept == if step < INT32_MIN then INT64_MIN as int else step
    ensures Descending(a, b, kept) == Descending(a, b, step)
  {
    if step < INT32_MIN {
      LongDescending(a, b, step);
      LongDescending(a, b, kept);
    }
  }

  /** [3000000000:] should select nothing, and selects the only element. */
  lemma LargeStartIsLost(element: Json)
    ensures var slice := Stored(Some(3_000_000_000), None, None);
            && slice.Some?
            && Selected([element], Meaning(slice.value)) != Selected([element], Selector(Some(3_000_000_000), None, 1))
  {
    ClampingOutcome([element], Some(3_000_000_000), None, None);
  }
}
