/** Text built from plain units, quoted strings and bracketed groups, and how the top-level splitter cuts it. */
module NestedText {
  import opened JsonValue
  import opened TopLevelSplit

  datatype QuotedUnit = Raw(c: CodeUnit) | Escape(c: CodeUnit)

  datatype Piece =
    | Plain(c: CodeUnit)
    | Quoted(quote: CodeUnit, body: seq<QuotedUnit>)
    | Group(opener: CodeUnit, inner: seq<Piece>)
  {
    predicate Valid() {
      match this
      case Plain(c) => !IsQuoteMark(c) && !IsOpener(c) && !IsCloser(c)
      case Quoted(quote, body) => IsQuoteMark(quote) && ValidBody(quote, body)
      case Group(opener, inner) => IsOpener(opener) && forall i :: 0 <= i < |inner| ==> inner[i].Valid()
    }

    function Text(): Text {
      match this
      case Plain(c) => [c]
      case Quoted(quote, body) => [quote] + (BodyText(body) + [quote])
      case Group(opener, inner) => [opener] + (TextOf(inner) + [Closer(opener)])
    }
  }

  predicate ValidBody(quote: CodeUnit, body: seq<QuotedUnit>) {
    forall i :: 0 <= i < |body| && body[i].Raw? ==> body[i].c != 0x5C && body[i].c != quote
  }

  predicate IsQuoteMark(c: CodeUnit) {
    c == 0x22 || c == 0x27
  }

  predicate IsCloser(c: CodeUnit) {
    c == ')' as int || c == ']' as int || c == '}' as int
  }

  predicate IsOpener(c: CodeUnit) {
    c == '(' as int || c == '[' as int || c == '{' as int
  }

  function Closer(opener: CodeUnit): CodeUnit {
    if opener == '(' as int then ')' as int else if opener == '[' as int then ']' as int else '}' as int
  }

  function BodyText(body: seq<QuotedUnit>): Text {
    if body == [] then []
    else (if body[0].Raw? then [body[0].c] else [0x5C, body[0].c]) + BodyText(body[1..])
  }

  function TextOf(pieces: seq<Piece>): Text {
    if pieces == [] then [] else pieces[0].Text() + TextOf(pieces[1..])
  }

  predicate AllValid(pieces: seq<Piece>) {
    forall i :: 0 <= i < |pieces| ==> pieces[i].Valid()
  }

  /** The pieces between the top-level occurrences of the delimiter; those inside quotes and groups do not count. */
  function SplitPieces(pieces: seq<Piece>, d: CodeUnit): (r: seq<seq<Piece>>)
    ensures r != []
  {
    if pieces == [] then [[]]
    else
      var rest := SplitPieces(pieces[1..], d);
      if pieces[0] == Plain(d) then [[]] + rest else [[pieces[0]] + rest[0]] + rest[1..]
  }

  function Texts(parts: seq<seq<Piece>>): seq<Text> {
    seq(|parts|, i requires 0 <= i < |parts| => TextOf(parts[i]))
  }

  // ---------------------------------------------------------------------
  // Scanning
  // ---------------------------------------------------------------------

  function After(s: Text, st: Scan): Scan {
    if s == [] then st else After(s[1..], Next(st, s[0]).0)
  }

  /** Where the delimiter is first found in `a` followed by `b`. */
  lemma {:induction false} ScanConcat(a: Text, b: Text, d: CodeUnit, st: Scan)
    ensures After(a + b, st) == After(b, After(a, st))
    ensures Find(a + b, [d], st) ==
            match Find(a, [d], st)
            case Some(k) => Some(k)
            case None =>
              match Find(b, [d], After(a, st))
              case Some(k) => Some(|a| + k)
              case None => None
  {
    if a == [] {
      assert a + b == b;
    } else {
      assert (a + b)[1..] == a[1..] + b;
      assert [d] <= a + b <==> [d] <= a;
      ScanConcat(a[1..], b, d, Next(st, a[0]).0);
    }
  }

  lemma ScanUnit(c: CodeUnit, d: CodeUnit, st: Scan)
    ensures After([c], st) == Next(st, c).0
    ensures Find([c], [d], st) == if Next(st, c).1 && c == d then Some(0) else None
  {
    assert [c][1..] == [];
    if [d] <= [c] {
      assert [d][0] == [c][0];
    }
  }

  /** Outside quotes, no more closers than openers so far. */
  predicate Balanced(st: Scan) {
    st.quote.None? && !st.escaped && st.parens >= 0 && st.brackets >= 0 && st.braces >= 0
  }

  lemma {:induction false} ScanBody(quote: CodeUnit, body: seq<QuotedUnit>, d: CodeUnit, st: Scan)
    requires ValidBody(quote, body) && st.quote == Some(quote) && !st.escaped
    ensures After(BodyText(body), st) == st && Find(BodyText(body), [d], st) == None
  {
    if body != [] {
      var first := if body[0].Raw? then [body[0].c] else [BACKSLASH, body[0].c];
      if body[0].Raw? {
        ScanUnit(body[0].c, d, st);
      } else {
        assert first == [BACKSLASH] + [body[0].c];
        ScanConcat([BACKSLASH], [body[0].c], d, st);
        ScanUnit(BACKSLASH, d, st);
        ScanUnit(body[0].c, d, st.(escaped := true));
        assert After(first, st) == st;
      }
      ScanBody(quote, body[1..], d, st);
      ScanConcat(first, BodyText(body[1..]), d, st);
    }
  }

  /** A unit, something that is scanned without effect, and a unit that undoes the first. */
  lemma ScanWrapped(open: CodeUnit, s: Text, close: CodeUnit, d: CodeUnit, st: Scan)
    requires var inside := Next(st, open).0;
             After(s, inside) == inside && Find(s, [d], inside) == None && Next(inside, close).0 == st
    requires open != d && close != d
    ensures After([open] + (s + [close]), st) == st && Find([open] + (s + [close]), [d], st) == None
  {
    var inside := Next(st, open).0;
    ScanUnit(open, d, st);
    ScanUnit(close, d, inside);
    ScanConcat(s, [close], d, inside);
    ScanConcat([open], s + [close], d, st);
  }

  /** A piece leaves the scanner as it was; the delimiter is found in it only as a plain unit at the top level. */
  lemma {:induction false} ScanPiece(piece: Piece, d: CodeUnit, st: Scan)
    requires piece.Valid() && IsDelimiter(d) && Balanced(st)
    ensures After(piece.Text(), st) == st
    ensures Find(piece.Text(), [d], st) == if piece == Plain(d) && st.AtTop() then Some(0) else None
    decreases piece, 0
  {
    match piece
    case Plain(c) => ScanUnit(c, d, st);
    case Quoted(quote, body) =>
      var inside := Next(st, quote).0;
      ScanBody(quote, body, d, inside);
      ScanWrapped(quote, BodyText(body), quote, d, st);
    case Group(opener, inner) =>
      var inside := Next(st, opener).0;
      ScanHidden(inner, d, inside);
      ScanWrapped(opener, TextOf(inner), Closer(opener), d, st);
  }

  /** Below the top level nothing is found. */
  lemma {:induction false} ScanHidden(pieces: seq<Piece>, d: CodeUnit, st: Scan)
    requires AllValid(pieces) && IsDelimiter(d) && Balanced(st) && !st.AtTop()
    ensures After(TextOf(pieces), st) == st && Find(TextOf(pieces), [d], st) == None
    decreases pieces
  {
    if pieces != [] {
      ScanPiece(pieces[0], d, st);
      ScanHidden(pieces[1..], d, st);
      ScanConcat(pieces[0].Text(), TextOf(pieces[1..]), d, st);
    }
  }

  // ---------------------------------------------------------------------
  // Splitting
  // ---------------------------------------------------------------------

  lemma SplitAtDelimiter(s: Text, d: CodeUnit)
    requires IsDelimiter(d)
    ensures Repeatedly([d] + s, [d]) == [[]] + Repeatedly(s, [d])
  {
    ScanUnit(d, d, INITIAL);
    ScanConcat([d], s, d, INITIAL);
    RepeatedlyStep([d] + s, [d], 0);
    assert ([d] + s)[1..] == s;
  }

  lemma SlicesOfConcat(a: Text, s: Text, k: nat)
    requires k < |s|
    ensures (a + s)[..|a| + k] == a + s[..k] && (a + s)[|a| + k + 1..] == s[k + 1..]
  {
  }

  /** Text without a delimiter, scanned without effect, goes to the first part. */
  lemma SplitAfterPrefix(a: Text, s: Text, d: CodeUnit)
    requires IsDelimiter(d) && After(a, INITIAL) == INITIAL && Find(a, [d], INITIAL) == None
    ensures Repeatedly(s, [d]) != []
    ensures Repeatedly(a + s, [d]) == [a + Repeatedly(s, [d])[0]] + Repeatedly(s, [d])[1..]
  {
    ScanConcat(a, s, d, INITIAL);
    if Find(s, [d], INITIAL).Some? {
      var k := Find(s, [d], INITIAL).value;
      RepeatedlyStep(s, [d], k);
      RepeatedlyStep(a + s, [d], |a| + k);
      SlicesOfConcat(a, s, k);
    }
  }

  /** Nested text comes apart exactly at the top-level delimiters of its structure. */
  lemma {:induction false} SplitOfNested(pieces: seq<Piece>, d: CodeUnit)
    requires AllValid(pieces) && IsDelimiter(d)
    ensures Pieces(TextOf(pieces), [d], 0, INITIAL, 0) == Texts(SplitPieces(pieces, d))
  {
    RepeatedlyOfNested(pieces, d);
    MultipleSplit(TextOf(pieces), [d]);
  }

  lemma TextsOfEmptyFirst(parts: seq<seq<Piece>>)
    ensures Texts([[]] + parts) == [[]] + Texts(parts)
  {
  }

  lemma TextsOfLongerFirst(piece: Piece, parts: seq<seq<Piece>>)
    requires parts != []
    ensures Texts([[piece] + parts[0]] + parts[1..]) == [piece.Text() + Texts(parts)[0]] + Texts(parts)[1..]
  {
    assert ([piece] + parts[0])[1..] == parts[0];
  }

  lemma {:induction false} RepeatedlyOfNested(pieces: seq<Piece>, d: CodeUnit)
    requires AllValid(pieces) && IsDelimiter(d)
    ensures Repeatedly(TextOf(pieces), [d]) == Texts(SplitPieces(pieces, d))
    decreases pieces
  {
    if pieces != [] {
      var rest := SplitPieces(pieces[1..], d);
      RepeatedlyOfNested(pieces[1..], d);
      if pieces[0] == Plain(d) {
        SplitAtDelimiter(TextOf(pieces[1..]), d);
        TextsOfEmptyFirst(rest);
      } else {
        ScanPiece(pieces[0], d, INITIAL);
        SplitAfterPrefix(pieces[0].Text(), TextOf(pieces[1..]), d);
        TextsOfLongerFirst(pieces[0], rest);
      }
    }
  }

  // ---------------------------------------------------------------------
  // Delimiters of several units, such as "||"
  // ---------------------------------------------------------------------

  predicate StartsWith(pieces: seq<Piece>, delim: Text) {
    |delim| <= |pieces| && forall i :: 0 <= i < |delim| ==> pieces[i] == Plain(delim[i])
  }

  /** Position of the first run of plain top-level units that spells the delimiter. */
  function FirstRun(pieces: seq<Piece>, delim: Text): (r: Option<nat>)
    ensures r.Some? ==> r.value + |delim| <= |pieces|
  {
    if StartsWith(pieces, delim) then Some(0)
    else if pieces == [] then None
    else
      match FirstRun(pieces[1..], delim)
      case None => None
      case Some(k) => Some(k + 1)
  }

  /** A delimiter unit at the front of a text is a plain unit of its structure. */
  lemma FirstUnit(pieces: seq<Piece>, c: CodeUnit)
    requires AllValid(pieces) && pieces != [] && IsDelimiter(c)
    ensures TextOf(pieces) != []
    ensures TextOf(pieces)[0] == c <==> pieces[0] == Plain(c)
    ensures pieces[0] == Plain(c) ==> TextOf(pieces)[1..] == TextOf(pieces[1..])
  {
    assert TextOf(pieces) == pieces[0].Text() + TextOf(pieces[1..]);
  }

  lemma PrefixStep(s: Text, t: Text)
    requires s != [] && t != []
    ensures s <= t <==> s[0] == t[0] && s[1..] <= t[1..]
  {
    assert s == [s[0]] + s[1..] && t == [t[0]] + t[1..];
  }

  lemma {:induction false} StartsWithText(pieces: seq<Piece>, delim: Text)
    requires AllValid(pieces) && forall i :: 0 <= i < |delim| ==> IsDelimiter(delim[i])
    ensures StartsWith(pieces, delim) <==> delim <= TextOf(pieces)
    ensures StartsWith(pieces, delim) ==> TextOf(pieces[|delim|..]) == TextOf(pieces)[|delim|..]
    decreases |delim|
  {
    if delim != [] && pieces != [] {
      FirstUnit(pieces, delim[0]);
      PrefixStep(delim, TextOf(pieces));
      if pieces[0] == Plain(delim[0]) {
        StartsWithText(pieces[1..], delim[1..]);
        if StartsWith(pieces, delim) {
          assert pieces[1..][|delim| - 1..] == pieces[|delim|..];
        }
      }
    }
  }

  /** Text in which the first unit of the delimiter cannot be met is passed over. */
  lemma {:induction false} PassOver(a: Text, b: Text, delim: Text, st: Scan)
    requires delim != [] && Find(a, [delim[0]], st) == None
    ensures Find(a + b, delim, st) == match Find(b, delim, After(a, st))
                                      case Some(k) => Some(|a| + k)
                                      case None => None
  {
    if a == [] {
      assert a + b == b;
    } else {
      assert (a + b)[1..] == a[1..] + b;
      assert delim <= a + b ==> [delim[0]] <= a;
      PassOver(a[1..], b, delim, Next(st, a[0]).0);
    }
  }

  /** The scan goes on behind a piece at which the delimiter does not start. */
  lemma FindBehind(piece: Piece, rest: Text, delim: Text)
    requires piece.Valid() && AllDelimiters(delim) && !(piece.Plain? && delim <= piece.Text() + rest)
    ensures Find(piece.Text() + rest, delim, INITIAL) == match Find(rest, delim, INITIAL)
                                                         case Some(k) => Some(|piece.Text()| + k)
                                                         case None => None
  {
    if piece.Plain? {
      assert (piece.Text() + rest)[1..] == rest;
    } else {
      ScanPiece(piece, delim[0], INITIAL);
      PassOver(piece.Text(), rest, delim, INITIAL);
    }
  }

  lemma TextOfPrefix(pieces: seq<Piece>, k: nat)
    requires 0 < k <= |pieces|
    ensures TextOf(pieces[..k]) == pieces[0].Text() + TextOf(pieces[1..][..k - 1])
  {
    assert pieces[..k][0] == pieces[0] && pieces[..k][1..] == pieces[1..][..k - 1];
  }

  lemma FindAtStart(pieces: seq<Piece>, delim: Text)
    requires AllValid(pieces) && AllDelimiters(delim) && StartsWith(pieces, delim)
    ensures Find(TextOf(pieces), delim, INITIAL) == Some(0)
  {
    StartsWithText(pieces, delim);
    assert TextOf(pieces)[0] == delim[0];
  }

  lemma FindLater(pieces: seq<Piece>, delim: Text)
    requires AllValid(pieces) && AllDelimiters(delim) && pieces != [] && !StartsWith(pieces, delim)
    ensures Find(TextOf(pieces), delim, INITIAL) == match Find(TextOf(pieces[1..]), delim, INITIAL)
                                                    case Some(k) => Some(|pieces[0].Text()| + k)
                                                    case None => None
  {
    StartsWithText(pieces, delim);
    FindBehind(pieces[0], TextOf(pieces[1..]), delim);
  }

  lemma {:induction false} FindNoRun(pieces: seq<Piece>, delim: Text)
    requires AllValid(pieces) && AllDelimiters(delim) && FirstRun(pieces, delim) == None
    ensures Find(TextOf(pieces), delim, INITIAL) == None
    decreases pieces
  {
    if pieces != [] {
      FindLater(pieces, delim);
      FindNoRun(pieces[1..], delim);
    }
  }

  /** The scan finds the first top-level run of the delimiter, at the end of the text of the pieces before it. */
  lemma FindRunLater(pieces: seq<Piece>, delim: Text, k: nat)
    requires AllValid(pieces) && AllDelimiters(delim) && FirstRun(pieces, delim) == Some(k) && k > 0
    requires Find(TextOf(pieces[1..]), delim, INITIAL) == Some(|TextOf(pieces[1..][..k - 1])|)
    ensures Find(TextOf(pieces), delim, INITIAL) == Some(|TextOf(pieces[..k])|)
  {
    FindLater(pieces, delim);
    TextOfPrefix(pieces, k);
  }

  lemma {:induction false} FindRun(pieces: seq<Piece>, delim: Text, k: nat)
    requires AllValid(pieces) && AllDelimiters(delim) && FirstRun(pieces, delim) == Some(k)
    ensures Find(TextOf(pieces), delim, INITIAL) == Some(|TextOf(pieces[..k])|)
    decreases pieces
  {
    if k == 0 {
      FindAtStart(pieces, delim);
      assert pieces[..0] == [];
    } else {
      assert FirstRun(pieces[1..], delim) == Some(k - 1);
      FindRun(pieces[1..], delim, k - 1);
      FindRunLater(pieces, delim, k);
    }
  }

  lemma {:induction false} TextOfConcat(a: seq<Piece>, b: seq<Piece>)
    ensures TextOf(a + b) == TextOf(a) + TextOf(b)
  {
    if a == [] {
      assert a + b == b;
    } else {
      assert (a + b)[1..] == a[1..] + b;
      TextOfConcat(a[1..], b);
    }
  }

  lemma {:induction false} FirstRunStarts(pieces: seq<Piece>, delim: Text)
    requires FirstRun(pieces, delim).Some?
    ensures StartsWith(pieces[FirstRun(pieces, delim).value..], delim)
  {
    if !StartsWith(pieces, delim) {
      FirstRunStarts(pieces[1..], delim);
      var k := FirstRun(pieces, delim).value;
      assert pieces[1..][k - 1..] == pieces[k..];
    }
  }

  lemma SuffixOfConcat(a: Text, b: Text, n: nat)
    requires n <= |b|
    ensures (a + b)[..|a|] == a && (a + b)[|a| + n..] == b[n..]
  {
  }

  lemma TextsAroundRun(pieces: seq<Piece>, delim: Text, k: nat)
    requires AllValid(pieces) && AllDelimiters(delim) && FirstRun(pieces, delim) == Some(k)
    ensures var left := TextOf(pieces[..k]);
            && |left| + |delim| <= |TextOf(pieces)|
            && TextOf(pieces)[..|left|] == left
            && TextOf(pieces)[|left| + |delim|..] == TextOf(pieces[k + |delim|..])
  {
    var left, right := pieces[..k], pieces[k..];
    FirstRunStarts(pieces, delim);
    StartsWithText(right, delim);
    assert pieces == left + right;
    assert right[|delim|..] == pieces[k + |delim|..];
    TextOfConcat(left, right);
    SuffixOfConcat(TextOf(left), TextOf(right), |delim|);
  }

  /** Nested text without a top-level run of the delimiter is not split. */
  lemma NoRunNoSplit(pieces: seq<Piece>, delim: Text)
    requires AllValid(pieces) && AllDelimiters(delim) && FirstRun(pieces, delim) == None
    ensures SplitOnce(TextOf(pieces), delim) == None
  {
    FindNoRun(pieces, delim);
  }

  /** Otherwise it is split at the first one: the texts of the pieces before it and of those after it. */
  lemma SplitsAtRun(pieces: seq<Piece>, delim: Text, k: nat)
    requires AllValid(pieces) && AllDelimiters(delim) && FirstRun(pieces, delim) == Some(k)
    ensures SplitOnce(TextOf(pieces), delim) == Some((TextOf(pieces[..k]), TextOf(pieces[k + |delim|..])))
  {
    FindRun(pieces, delim, k);
    TextsAroundRun(pieces, delim, k);
    SplitAround(TextOf(pieces), delim, TextOf(pieces[..k]), TextOf(pieces[k + |delim|..]));
  }

  // ---------------------------------------------------------------------
  // Text without quotes, balanced or not
  // ---------------------------------------------------------------------

  function Count(c: char, s: Text): nat
    requires c as int < 0x80
  {
    multiset(s)[c as int]
  }

  /** As many brackets of each kind open as close, in whatever order. */
  predicate CountsMatch(s: Text) {
    Count('(', s) == Count(')', s) && Count('[', s) == Count(']', s) && Count('{', s) == Count('}', s)
  }

  predicate NoQuotes(s: Text) {
    forall i :: 0 <= i < |s| ==> !IsQuoteMark(s[i])
  }

  /** The delimiter stands at `k`, and so far the brackets match in number. */
  predicate CutPlace(s: Text, delim: Text, k: nat) {
    k < |s| && delim <= s[k..] && CountsMatch(s[..k + 1])
  }

  /** The scanner's depths are those numbers. */
  predicate Counted(s: Text, st: Scan) {
    && st.quote.None? && !st.escaped
    && st.parens == Count('(', s) - Count(')', s)
    && st.brackets == Count('[', s) - Count(']', s)
    && st.braces == Count('{', s) - Count('}', s)
  }

  lemma OneMoreCounted(s: Text, c: CodeUnit, st: Scan)
    requires Counted(s, st) && !IsQuoteMark(c)
    ensures Counted(s + [c], Next(st, c).0)
    ensures Next(st, c).1 <==> CountsMatch(s + [c])
  {
  }

  predicate NoCutIn(s: Text, delim: Text, i: nat, end: nat) {
    forall j: nat :: i <= j < end ==> !CutPlace(s, delim, j)
  }

  /** The first place from `i` on at which to cut. */
  predicate FirstCut(s: Text, delim: Text, i: nat, at: Option<nat>) {
    match at
    case Some(k) => i <= k && CutPlace(s, delim, k) && NoCutIn(s, delim, i, k)
    case None => NoCutIn(s, delim, i, |s|)
  }

  lemma FirstCutLater(s: Text, delim: Text, i: nat, at: Option<nat>)
    requires FirstCut(s, delim, i + 1, at) && !CutPlace(s, delim, i)
    ensures FirstCut(s, delim, i, at)
  {
  }

  function Shifted(at: Option<nat>, i: nat): Option<nat> {
    if at.Some? then Some(i + at.value) else None
  }

  lemma OneMoreUnit(s: Text, i: nat, delim: Text, st: Scan)
    requires NoQuotes(s) && i < |s| && Counted(s[..i], st)
    ensures Counted(s[..i + 1], Next(st, s[i]).0)
    ensures Next(st, s[i]).1 && delim <= s[i..] <==> CutPlace(s, delim, i)
  {
    assert s[..i + 1] == s[..i] + [s[i]];
    OneMoreCounted(s[..i], s[i], st);
  }

  lemma FindStep(s: Text, i: nat, delim: Text, st: Scan)
    requires i < |s|
    ensures Shifted(Find(s[i..], delim, st), i) ==
            if Next(st, s[i]).1 && delim <= s[i..] then Some(i)
            else Shifted(Find(s[i + 1..], delim, Next(st, s[i]).0), i + 1)
  {
    assert s[i..][1..] == s[i + 1..];
  }

  lemma {:induction false} FindFrom(s: Text, i: nat, delim: Text, st: Scan)
    requires NoQuotes(s) && i <= |s| && Counted(s[..i], st)
    ensures FirstCut(s, delim, i, Shifted(Find(s[i..], delim, st), i))
    decreases |s| - i
  {
    if i < |s| {
      FindStep(s, i, delim, st);
      OneMoreUnit(s, i, delim, st);
      if !CutPlace(s, delim, i) {
        FindFrom(s, i + 1, delim, Next(st, s[i]).0);
        FirstCutLater(s, delim, i, Shifted(Find(s[i + 1..], delim, Next(st, s[i]).0), i + 1));
      }
    }
  }

  /**
   * Text without quotes is cut at the first delimiter up to which as many
   * brackets of each kind open as close. They need not be nested: behind an
   * unmatched closer, the inside of the next group is top level.
   */
  lemma UnquotedIsCounted(s: Text, delim: Text)
    requires NoQuotes(s)
    ensures FirstCut(s, delim, 0, Find(s, delim, INITIAL))
  {
    assert s[..0] == [] && s[0..] == s;
    FindFrom(s, 0, delim, INITIAL);
  }
}
