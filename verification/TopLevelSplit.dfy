/** Splitting filter text at delimiters outside quotes and brackets. */
module TopLevelSplit {
  import opened JsonValue

  const APOSTROPHE: CodeUnit := 0x27
  const QUOTE: CodeUnit := 0x22
  const BACKSLASH: CodeUnit := 0x5C
  const PAREN_OPEN: CodeUnit := 0x28
  const PAREN_CLOSE: CodeUnit := 0x29
  const BRACKET_OPEN: CodeUnit := 0x5B
  const BRACKET_CLOSE: CodeUnit := 0x5D
  const BRACE_OPEN: CodeUnit := 0x7B
  const BRACE_CLOSE: CodeUnit := 0x7D

  predicate IsQuote(c: CodeUnit) {
    c == APOSTROPHE || c == QUOTE
  }

  predicate IsBracket(c: CodeUnit) {
    || c == PAREN_OPEN || c == PAREN_CLOSE || c == BRACKET_OPEN || c == BRACKET_CLOSE
    || c == BRACE_OPEN || c == BRACE_CLOSE
  }

  /** The scanner's variables; depths go negative on unbalanced closers. */
  datatype Scan = Scan(parens: int, brackets: int, braces: int, quote: Option<CodeUnit>, escaped: bool) {
    predicate AtTop() {
      parens == 0 && brackets == 0 && braces == 0
    }
  }

  const INITIAL: Scan := Scan(0, 0, 0, None, false)

  /** The scanner after one unit, and whether a delimiter may start at that unit. */
  function Next(st: Scan, c: CodeUnit): (Scan, bool) {
    if st.quote.Some? then
      if st.escaped then (st.(escaped := false), false)
      else if c == BACKSLASH then (st.(escaped := true), false)
      else if c == st.quote.value then (st.(quote := None), false)
      else (st, false)
    else if IsQuote(c) then (st.(quote := Some(c)), false)
    else
      var after :=
        if c == PAREN_OPEN then st.(parens := st.parens + 1)
        else if c == PAREN_CLOSE then st.(parens := st.parens - 1)
        else if c == BRACKET_OPEN then st.(brackets := st.brackets + 1)
        else if c == BRACKET_CLOSE then st.(brackets := st.brackets - 1)
        else if c == BRACE_OPEN then st.(braces := st.braces + 1)
        else if c == BRACE_CLOSE then st.(braces := st.braces - 1)
        else st;
      (after, after.AtTop())
  }

  /** Position of the first top-level delimiter, scanning from the state `st`. */
  function Find(s: Text, delim: Text, st: Scan): Option<nat> {
    if s == [] then None
    else
      var (after, test) := Next(st, s[0]);
      if test && delim <= s then Some(0)
      else
        match Find(s[1..], delim, after)
        case None => None
        case Some(k) => Some(k + 1)
  }

  lemma {:induction false} FindInRange(s: Text, delim: Text, st: Scan)
    requires Find(s, delim, st).Some?
    ensures Find(s, delim, st).value < |s| && Find(s, delim, st).value + |delim| <= |s|
  {
    var (after, test) := Next(st, s[0]);
    if !(test && delim <= s) {
      FindInRange(s[1..], delim, after);
    }
  }

  lemma {:induction false} FindIsInside(s: Text, delim: Text, st: Scan, k: nat)
    requires Find(s, delim, st) == Some(k) && k + |delim| <= |s|
    ensures s[k..k + |delim|] == delim
  {
    if k > 0 {
      var (after, test) := Next(st, s[0]);
      FindInRange(s[1..], delim, after);
      FindIsInside(s[1..], delim, after, k - 1);
      assert s[1..][k - 1..k - 1 + |delim|] == s[k..k + |delim|];
    }
  }

  method SplitTopLevel(sv: Text, delim: Text) returns (r: Option<(Text, Text)>)
    ensures r == SplitOnce(sv, delim)
    ensures r.Some? ==> sv == r.value.0 + delim + r.value.1
  {
    var st := INITIAL;
    var i := 0;
    assert sv[0..] == sv;
    while i < |sv|
      invariant 0 <= i <= |sv|
      invariant Find(sv, delim, INITIAL) == match Find(sv[i..], delim, st)
                                            case None => None
                                            case Some(k) => Some(k + i)
    {
      var (after, test) := Next(st, sv[i]);
      assert sv[i..][1..] == sv[i + 1..];
      st := after;
      if test && i + |delim| <= |sv| && sv[i..i + |delim|] == delim {
        assert delim <= sv[i..];
        assert sv == sv[..i] + delim + sv[i + |delim|..];
        return Some((sv[..i], sv[i + |delim|..]));
      }
      assert !(test && delim <= sv[i..]) by {
        if delim <= sv[i..] {
          assert sv[i..][..|delim|] == sv[i..i + |delim|];
        }
      }
      i := i + 1;
    }
    return None;
  }

  /** The text before and after the `n` units at a position. */
  function CutAt(s: Text, at: Option<nat>, n: nat): Option<(Text, Text)>
    requires at.Some? ==> at.value + n <= |s|
  {
    match at
    case None => None
    case Some(k) => Some((s[..k], s[k + n..]))
  }

  function SplitOnce(s: Text, delim: Text): (r: Option<(Text, Text)>)
    ensures r.Some? && delim != [] ==> |r.value.1| < |s|
  {
    var at := Find(s, delim, INITIAL);
    if at.Some? then FindInRange(s, delim, INITIAL); CutAt(s, at, |delim|)
    else None
  }

  lemma SplitOnceCuts(s: Text, delim: Text, at: nat)
    requires Find(s, delim, INITIAL) == Some(at) && at + |delim| <= |s|
    ensures SplitOnce(s, delim) == CutAt(s, Some(at), |delim|)
  {
  }

  lemma CutAround(s: Text, left: Text, n: nat, right: Text)
    requires |left| + n <= |s| && s[..|left|] == left && s[|left| + n..] == right
    ensures CutAt(s, Some(|left|), n) == Some((left, right))
  {
  }

  lemma SplitAround(s: Text, delim: Text, left: Text, right: Text)
    requires Find(s, delim, INITIAL) == Some(|left|) && |left| + |delim| <= |s|
    requires s[..|left|] == left && s[|left| + |delim|..] == right
    ensures SplitOnce(s, delim) == Some((left, right))
  {
    SplitOnceCuts(s, delim, |left|);
    CutAround(s, left, |delim|, right);
  }

  /** QStringView::mid, where a negative length means "to the end". */
  function Mid(s: Text, pos: nat, n: int): Text
    requires pos <= |s|
  {
    if n < 0 || n > |s| - pos then s[pos..] else s[pos..pos + n]
  }

  /** The parts cut off from position `i` on, `last` being the start of the current part; the tail comes last. */
  function Pieces(s: Text, delim: Text, i: nat, st: Scan, last: nat): seq<Text>
    requires i <= |s| && last <= |s|
    decreases |s| - i
  {
    if i == |s| then [s[last..]]
    else
      var (after, test) := Next(st, s[i]);
      if test && delim <= s[i..] then [Mid(s, last, i - last)] + Pieces(s, delim, i + 1, after, i + |delim|)
      else Pieces(s, delim, i + 1, after, last)
  }

  method SplitTopLevelMultiple(sv: Text, delim: Text) returns (r: Option<seq<Text>>)
    ensures var pieces := Pieces(sv, delim, 0, INITIAL, 0);
            r == if |pieces| == 1 then None else Some(pieces)
  {
    var parts: seq<Text> := [];
    var last := 0;
    var st := INITIAL;
    var i := 0;
    while i < |sv|
      invariant 0 <= i <= |sv| && 0 <= last <= |sv|
      invariant Pieces(sv, delim, 0, INITIAL, 0) == parts + Pieces(sv, delim, i, st, last)
    {
      var (after, test) := Next(st, sv[i]);
      if test && i + |delim| <= |sv| && sv[i..i + |delim|] == delim {
        assert delim <= sv[i..];
        CutPiece(parts, Mid(sv, last, i - last), Pieces(sv, delim, i + 1, after, i + |delim|));
        parts := parts + [Mid(sv, last, i - last)];
        last := i + |delim|;
      } else if delim <= sv[i..] {
        assert sv[i..][..|delim|] == sv[i..i + |delim|];
      }
      st := after;
      i := i + 1;
    }
    if parts != [] {
      parts := parts + [sv[last..]];
      return Some(parts);
    }
    return None;
  }

  lemma CutPiece(parts: seq<Text>, piece: Text, rest: seq<Text>)
    ensures parts + ([piece] + rest) == (parts + [piece]) + rest
  {
  }

  // ---------------------------------------------------------------------
  // Laws for the delimiters in use: one unit, neither quote nor bracket
  // ---------------------------------------------------------------------

  predicate PlainDelimiter(delim: Text) {
    |delim| == 1 && !IsQuote(delim[0]) && !IsBracket(delim[0])
  }

  /** Splitting again and again at the first top-level delimiter of what remains on the right. */
  function Repeatedly(s: Text, delim: Text): seq<Text>
    requires delim != []
    decreases |s|
  {
    match SplitOnce(s, delim)
    case None => [s]
    case Some((left, right)) => [left] + Repeatedly(right, delim)
  }

  /** At a top-level plain delimiter the scanner is back in its initial state. */
  lemma NextAtDelimiter(st: Scan, c: CodeUnit)
    requires st.quote.None? ==> !st.escaped
    requires !IsQuote(c) && !IsBracket(c) && Next(st, c).1
    ensures Next(st, c).0 == INITIAL
  {
  }

  lemma EscapedOnlyInQuotes(st: Scan, c: CodeUnit)
    requires st.quote.None? ==> !st.escaped
    ensures Next(st, c).0.quote.None? ==> !Next(st, c).0.escaped
  {
  }

  /** From any scan position the next piece ends at the next top-level delimiter, and the rest starts afresh. */
  lemma {:induction false} PiecesToNext(s: Text, delim: Text, i: nat, st: Scan, last: nat)
    requires PlainDelimiter(delim)
    requires last <= i <= |s|
    requires st.quote.None? ==> !st.escaped
    ensures match Find(s[i..], delim, st)
            case None => Pieces(s, delim, i, st, last) == [s[last..]]
            case Some(k) => && i + k + 1 <= |s|
                            && Pieces(s, delim, i, st, last) ==
                               [s[last..i + k]] + Pieces(s, delim, i + k + 1, INITIAL, i + k + 1)
    decreases |s| - i
  {
    if i < |s| {
      var (after, test) := Next(st, s[i]);
      assert s[i..][0] == s[i] && s[i..][1..] == s[i + 1..];
      if test && delim <= s[i..] {
        assert delim[0] == s[i];
        NextAtDelimiter(st, s[i]);
      } else {
        EscapedOnlyInQuotes(st, s[i]);
        PiecesToNext(s, delim, i + 1, after, last);
      }
    }
  }

  lemma RepeatedlyStep(s: Text, delim: Text, k: nat)
    requires PlainDelimiter(delim)
    requires Find(s, delim, INITIAL) == Some(k)
    ensures k < |s| && Repeatedly(s, delim) == [s[..k]] + Repeatedly(s[k + 1..], delim)
  {
    FindInRange(s, delim, INITIAL);
  }

  /** One pass over the text cuts exactly where repeated splitting would. */
  lemma {:induction false} OnePassIsRepeated(s: Text, delim: Text, i: nat)
    requires PlainDelimiter(delim) && i <= |s|
    ensures Pieces(s, delim, i, INITIAL, i) == Repeatedly(s[i..], delim)
    decreases |s| - i
  {
    var rest := s[i..];
    var found := Find(rest, delim, INITIAL);
    if found.None? {
      assert Pieces(s, delim, i, INITIAL, i) == [rest] by {
        PiecesToNext(s, delim, i, INITIAL, i);
      }
    } else {
      var k := found.value;
      assert i + k + 1 <= |s| && rest[..k] == s[i..i + k] && rest[k + 1..] == s[i + k + 1..] by {
        FindInRange(rest, delim, INITIAL);
        SliceOfSuffix(s, i, k);
      }
      assert Pieces(s, delim, i, INITIAL, i) == [rest[..k]] + Repeatedly(rest[k + 1..], delim) by {
        PiecesToNext(s, delim, i, INITIAL, i);
        OnePassIsRepeated(s, delim, i + k + 1);
      }
      RepeatedlyStep(rest, delim, k);
    }
  }

  lemma SliceOfSuffix(s: Text, i: nat, k: nat)
    requires i + k < |s|
    ensures s[i..][..k] == s[i..i + k] && s[i..][k + 1..] == s[i + k + 1..]
  {
  }

  function JoinWith(parts: seq<Text>, delim: Text): Text
    requires parts != []
  {
    if |parts| == 1 then parts[0] else parts[0] + delim + JoinWith(parts[1..], delim)
  }

  /** The units before the first top-level delimiter contain none, brackets balanced or not. */
  lemma {:induction false} NoneBefore(s: Text, delim: Text, st: Scan, n: nat)
    requires |delim| == 1 && n <= |s|
    requires Find(s, delim, st).Some? ==> n <= Find(s, delim, st).value
    ensures Find(s[..n], delim, st) == None
  {
    if n > 0 {
      var (after, test) := Next(st, s[0]);
      assert s[..n][1..] == s[1..][..n - 1];
      assert delim <= s[..n] <==> delim <= s;
      NoneBefore(s[1..], delim, after, n - 1);
    }
  }

  /** Joining the parts restores the text, and no part has a top-level delimiter left. */
  lemma {:induction false} PartsJoinBack(s: Text, delim: Text)
    requires PlainDelimiter(delim)
    ensures Repeatedly(s, delim) != []
    ensures JoinWith(Repeatedly(s, delim), delim) == s
    ensures forall i :: 0 <= i < |Repeatedly(s, delim)| ==> SplitOnce(Repeatedly(s, delim)[i], delim) == None
    decreases |s|
  {
    match Find(s, delim, INITIAL)
    case None =>
    case Some(k) =>
      FindInRange(s, delim, INITIAL);
      FindIsInside(s, delim, INITIAL, k);
      NoneBefore(s, delim, INITIAL, k);
      PartsJoinBack(s[k + 1..], delim);
      var rest := Repeatedly(s[k + 1..], delim);
      assert Repeatedly(s, delim)[1..] == rest;
      assert s == s[..k] + delim + s[k + 1..];
  }

  /** What splitTopLevelMultiple returns, for every text. */
  lemma MultipleSplit(s: Text, delim: Text)
    requires PlainDelimiter(delim)
    ensures var pieces := Pieces(s, delim, 0, INITIAL, 0);
            && pieces == Repeatedly(s, delim)
            && (|pieces| == 1 <==> SplitOnce(s, delim).None?)
            && JoinWith(pieces, delim) == s
            && forall i :: 0 <= i < |pieces| ==> SplitOnce(pieces[i], delim).None?
  {
    assert s[0..] == s;
    OnePassIsRepeated(s, delim, 0);
    PartsJoinBack(s, delim);
    if Find(s, delim, INITIAL).Some? {
      FindInRange(s, delim, INITIAL);
      PartsJoinBack(s[Find(s, delim, INITIAL).value + 1..], delim);
    }
  }

  // ---------------------------------------------------------------------
  // Delimiters of several units
  // ---------------------------------------------------------------------

  predicate IsDelimiter(d: CodeUnit) {
    !IsQuote(d) && !IsBracket(d)
  }

  predicate AllDelimiters(delim: Text) {
    delim != [] && forall i :: 0 <= i < |delim| ==> IsDelimiter(delim[i])
  }

  /** Where the delimiter starts at the top level, from position `i` on, overlapping or not. */
  function Matches(s: Text, delim: Text, i: nat, st: Scan): (r: seq<nat>)
    requires i <= |s|
    ensures forall j :: 0 <= j < |r| ==> i <= r[j] && r[j] + |delim| <= |s|
    decreases |s| - i
  {
    if i == |s| then []
    else
      var (after, test) := Next(st, s[i]);
      (if test && delim <= s[i..] then [i] else []) + Matches(s, delim, i + 1, after)
  }

  /** Each match ends before the next one starts. */
  predicate Apart(matches: seq<nat>, n: nat) {
    forall j :: 0 <= j < |matches| - 1 ==> matches[j] + n <= matches[j + 1]
  }

  lemma ApartStep(m: nat, rest: seq<nat>, n: nat)
    ensures Apart([m] + rest, n) <==> Apart(rest, n) && (rest != [] ==> m + n <= rest[0])
  {
    var all := [m] + rest;
    assert forall j :: 0 <= j < |rest| ==> all[j + 1] == rest[j];
    if Apart(all, n) && rest != [] {
      assert all[0] + n <= all[1];
      forall j | 0 <= j < |rest| - 1
        ensures rest[j] + n <= rest[j + 1]
      {
        assert all[j + 1] + n <= all[j + 2];
      }
    }
  }

  /** `Find` with positions counted from the start of the text. */
  function FindFrom(s: Text, delim: Text, i: nat, st: Scan): (r: Option<nat>)
    requires i <= |s|
    ensures r.Some? ==> i <= r.value < |s| && delim <= s[r.value..]
    decreases |s| - i
  {
    if i == |s| then None
    else
      var (after, test) := Next(st, s[i]);
      if test && delim <= s[i..] then Some(i) else FindFrom(s, delim, i + 1, after)
  }

  lemma SuffixStep(s: Text, i: nat)
    requires i < |s|
    ensures s[i..] != [] && s[i..][0] == s[i] && s[i..][1..] == s[i + 1..]
  {
  }

  lemma {:induction false} FoundFrom(s: Text, delim: Text, i: nat, st: Scan, m: nat)
    requires i <= |s| && FindFrom(s, delim, i, st) == Some(m)
    ensures i <= m && Find(s[i..], delim, st) == Some(m - i)
    decreases |s| - i
  {
    SuffixStep(s, i);
    if m > i {
      FoundFrom(s, delim, i + 1, Next(st, s[i]).0, m);
    }
  }

  lemma {:induction false} NotFoundFrom(s: Text, delim: Text, i: nat, st: Scan)
    requires i <= |s| && FindFrom(s, delim, i, st) == None
    ensures Find(s[i..], delim, st) == None
    decreases |s| - i
  {
    if i < |s| {
      SuffixStep(s, i);
      NotFoundFrom(s, delim, i + 1, Next(st, s[i]).0);
    }
  }

  lemma UnitsOfPrefix(s: Text, delim: Text, i: nat)
    requires i <= |s| && delim <= s[i..]
    ensures i + |delim| <= |s| && forall j :: i <= j < i + |delim| ==> s[j] == delim[j - i]
  {
    forall j | i <= j < i + |delim|
      ensures s[j] == delim[j - i]
    {
      assert s[i..][j - i] == s[j];
    }
  }

  lemma {:induction false} NoMatchAhead(s: Text, delim: Text, i: nat, st: Scan, last: nat)
    requires last <= i <= |s| && FindFrom(s, delim, i, st) == None
    ensures Matches(s, delim, i, st) == [] && Pieces(s, delim, i, st, last) == [s[last..]]
    decreases |s| - i
  {
    if i < |s| {
      NoMatchAhead(s, delim, i + 1, Next(st, s[i]).0, last);
    }
  }

  /** Up to the first match nothing is cut; at it the scanner is in its initial state. */
  lemma {:induction false} MatchAhead(s: Text, delim: Text, i: nat, st: Scan, last: nat, m: nat)
    requires AllDelimiters(delim) && last <= i <= |s| && (st.quote.None? ==> !st.escaped)
    requires FindFrom(s, delim, i, st) == Some(m) && m + |delim| <= |s|
    ensures Matches(s, delim, i, st) == [m] + Matches(s, delim, m + 1, INITIAL)
    ensures Pieces(s, delim, i, st, last) == [s[last..m]] + Pieces(s, delim, m + 1, INITIAL, m + |delim|)
    decreases |s| - i
  {
    var (after, test) := Next(st, s[i]);
    if m == i {
      UnitsOfPrefix(s, delim, i);
      NextAtDelimiter(st, s[i]);
    } else {
      EscapedOnlyInQuotes(st, s[i]);
      MatchAhead(s, delim, i + 1, after, last, m);
    }
  }

  /** Over plain units at the top level the scanner stays in its initial state. */
  lemma {:induction false} MatchesWithin(s: Text, delim: Text, i: nat, end: nat) returns (within: seq<nat>)
    requires i <= end <= |s| && forall j :: i <= j < end ==> IsDelimiter(s[j])
    ensures Matches(s, delim, i, INITIAL) == within + Matches(s, delim, end, INITIAL)
    ensures forall j :: 0 <= j < |within| ==> i <= within[j] < end
    ensures within == [] ==> forall last: nat :: last <= |s| ==>
                               Pieces(s, delim, i, INITIAL, last) == Pieces(s, delim, end, INITIAL, last)
    decreases end - i
  {
    within := [];
    if i < end {
      assert Next(INITIAL, s[i]) == (INITIAL, true);
      var more := MatchesWithin(s, delim, i + 1, end);
      within := if delim <= s[i..] then [i] + more else more;
    }
  }

  /** Repeated splitting with positions counted from the start of the text. */
  function Cuts(s: Text, delim: Text, i: nat): seq<Text>
    requires delim != [] && i <= |s|
    decreases |s| - i
  {
    match FindFrom(s, delim, i, INITIAL)
    case None => [s[i..]]
    case Some(m) =>
      UnitsOfPrefix(s, delim, m);
      [s[i..m]] + Cuts(s, delim, m + |delim|)
  }

  lemma SliceFrom(s: Text, i: nat, m: nat, end: nat)
    requires i <= m <= end <= |s|
    ensures s[i..][..m - i] == s[i..m] && s[i..][end - i..] == s[end..]
  {
  }

  lemma SplitOnceFrom(s: Text, delim: Text, i: nat, m: nat, end: nat)
    requires i <= m <= end <= |s| && end == m + |delim| && FindFrom(s, delim, i, INITIAL) == Some(m)
    ensures SplitOnce(s[i..], delim) == Some((s[i..m], s[end..]))
  {
    FoundFrom(s, delim, i, INITIAL, m);
    SliceFrom(s, i, m, end);
    SplitAround(s[i..], delim, s[i..m], s[end..]);
  }

  lemma RepeatedlyAfter(s: Text, delim: Text, left: Text, right: Text)
    requires delim != [] && SplitOnce(s, delim) == Some((left, right))
    ensures Repeatedly(s, delim) == [left] + Repeatedly(right, delim)
  {
  }

  lemma {:induction false} CutsAreRepeated(s: Text, delim: Text, i: nat)
    requires delim != [] && i <= |s|
    ensures Cuts(s, delim, i) == Repeatedly(s[i..], delim)
    decreases |s| - i
  {
    match FindFrom(s, delim, i, INITIAL)
    case None => NotFoundFrom(s, delim, i, INITIAL);
    case Some(m) =>
      UnitsOfPrefix(s, delim, m);
      var end := m + |delim|;
      CutsAreRepeated(s, delim, end);
      SplitOnceFrom(s, delim, i, m, end);
      RepeatedlyAfter(s[i..], delim, s[i..m], s[end..]);
  }

  lemma {:induction false} CountPieces(s: Text, delim: Text, i: nat, st: Scan, last: nat)
    requires i <= |s| && last <= |s|
    ensures |Pieces(s, delim, i, st, last)| == 1 + |Matches(s, delim, i, st)|
    decreases |s| - i
  {
    if i < |s| {
      var (after, test) := Next(st, s[i]);
      CountPieces(s, delim, i + 1, after, if test && delim <= s[i..] then i + |delim| else last);
    }
  }

  /** How the parts of repeated splitting and the pieces of the single pass compare with the matches. */
  predicate Compare(matches: seq<nat>, parts: seq<Text>, pieces: seq<Text>, n: nat) {
    && |parts| <= 1 + |matches|
    && (|parts| == 1 + |matches| <==> Apart(matches, n))
    && (Apart(matches, n) ==> pieces == parts)
  }

  lemma CompareStep(m: nat, end: nat, within: seq<nat>, behind: seq<nat>, n: nat, head: Text, parts: seq<Text>,
                    pieces: seq<Text>, more: seq<Text>)
    requires Compare(behind, parts, pieces, n) && end == m + n
    requires forall j :: 0 <= j < |within| ==> within[j] < end
    requires forall j :: 0 <= j < |behind| ==> end <= behind[j]
    requires within == [] ==> more == pieces
    ensures Compare([m] + (within + behind), [head] + parts, [head] + more, n)
  {
    ApartStep(m, within + behind, n);
    if within == [] {
      assert within + behind == behind;
    } else {
      assert (within + behind)[0] == within[0];
    }
  }

  lemma CutsStep(s: Text, delim: Text, i: nat, m: nat, end: nat)
    requires delim != [] && i <= |s| && FindFrom(s, delim, i, INITIAL) == Some(m) && end == m + |delim| <= |s|
    ensures Cuts(s, delim, i) == [s[i..m]] + Cuts(s, delim, end)
  {
  }

  /** Repeated splitting makes at most one cut per match, and one for each exactly when they do not overlap. */
  lemma {:induction false} CutsPerMatch(s: Text, delim: Text, i: nat)
    requires AllDelimiters(delim) && i <= |s|
    ensures Compare(Matches(s, delim, i, INITIAL), Cuts(s, delim, i), Pieces(s, delim, i, INITIAL, i), |delim|)
    decreases |s| - i
  {
    match FindFrom(s, delim, i, INITIAL)
    case None => NoMatchAhead(s, delim, i, INITIAL, i);
    case Some(m) =>
      UnitsOfPrefix(s, delim, m);
      var end := m + |delim|;
      CutsPerMatch(s, delim, end);
      CutAtMatch(s, delim, i, m, end);
  }

  lemma CutAtMatch(s: Text, delim: Text, i: nat, m: nat, end: nat)
    requires AllDelimiters(delim) && i <= |s| && FindFrom(s, delim, i, INITIAL) == Some(m) && end == m + |delim| <= |s|
    requires forall j :: m + 1 <= j < end ==> IsDelimiter(s[j])
    requires Compare(Matches(s, delim, end, INITIAL), Cuts(s, delim, end), Pieces(s, delim, end, INITIAL, end), |delim|)
    ensures Compare(Matches(s, delim, i, INITIAL), Cuts(s, delim, i), Pieces(s, delim, i, INITIAL, i), |delim|)
  {
    var within := MatchesWithin(s, delim, m + 1, end);
    CutsAndMatches(s, delim, i, m, end, within);
    CompareAgain(m, end, within, Matches(s, delim, end, INITIAL), |delim|, s[i..m], Cuts(s, delim, end),
                 Pieces(s, delim, end, INITIAL, end), Pieces(s, delim, m + 1, INITIAL, end),
                 Matches(s, delim, i, INITIAL), Cuts(s, delim, i), Pieces(s, delim, i, INITIAL, i));
  }

  lemma CompareAgain(m: nat, end: nat, within: seq<nat>, behind: seq<nat>, n: nat, head: Text, parts: seq<Text>,
                     pieces: seq<Text>, more: seq<Text>, allMatches: seq<nat>, allParts: seq<Text>,
                     allPieces: seq<Text>)
    requires Compare(behind, parts, pieces, n) && end == m + n
    requires forall j :: 0 <= j < |within| ==> within[j] < end
    requires forall j :: 0 <= j < |behind| ==> end <= behind[j]
    requires within == [] ==> more == pieces
    requires allMatches == [m] + (within + behind) && allParts == [head] + parts && allPieces == [head] + more
    ensures Compare(allMatches, allParts, allPieces, n)
  {
    CompareStep(m, end, within, behind, n, head, parts, pieces, more);
  }

  lemma CutsAndMatches(s: Text, delim: Text, i: nat, m: nat, end: nat, within: seq<nat>)
    requires AllDelimiters(delim) && i <= |s| && FindFrom(s, delim, i, INITIAL) == Some(m) && end == m + |delim| <= |s|
    requires Matches(s, delim, m + 1, INITIAL) == within + Matches(s, delim, end, INITIAL)
    ensures Matches(s, delim, i, INITIAL) == [m] + (within + Matches(s, delim, end, INITIAL))
    ensures Cuts(s, delim, i) == [s[i..m]] + Cuts(s, delim, end)
    ensures Pieces(s, delim, i, INITIAL, i) == [s[i..m]] + Pieces(s, delim, m + 1, INITIAL, end)
  {
    CutsStep(s, delim, i, m, end);
    MatchAhead(s, delim, i, INITIAL, i, m);
  }

  /** The single pass agrees with repeated splitting exactly when no two top-level matches overlap. */
  lemma MultipleAgreesWhenApart(s: Text, delim: Text)
    requires AllDelimiters(delim)
    ensures Pieces(s, delim, 0, INITIAL, 0) == Repeatedly(s, delim) <==> Apart(Matches(s, delim, 0, INITIAL), |delim|)
  {
    assert s[0..] == s;
    CutsAreRepeated(s, delim, 0);
    CutsPerMatch(s, delim, 0);
    CountPieces(s, delim, 0, INITIAL, 0);
  }

  /** A delimiter that overlaps itself is cut twice: with "||", the text "|||" comes apart as "", "|", "". */
  lemma OverlappingDelimiter()
    ensures var bar: CodeUnit := 0x7C;
            Pieces([bar, bar, bar], [bar, bar], 0, INITIAL, 0) == [[], [bar], []]
  {
    var bar: CodeUnit := 0x7C;
    var s, d := [bar, bar, bar], [bar, bar];
    assert s[2..] == [bar];
    assert !(d <= s[2..]);
    assert d <= s[0..] && d <= s[1..];
    assert Pieces(s, d, 3, INITIAL, 3) == [[]];
    assert Pieces(s, d, 2, INITIAL, 3) == [[]];
    assert Pieces(s, d, 1, INITIAL, 2) == [[bar]] + [[]];
    assert Pieces(s, d, 0, INITIAL, 0) == [[]] + Pieces(s, d, 1, INITIAL, 2);
  }
}
