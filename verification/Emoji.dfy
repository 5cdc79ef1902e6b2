/** Finding custom emoji in a message, and choosing which pictures a direct message carries. */
module Emoji {
  import opened Wrappers
  import opened Text

  datatype Piece = Text(text: string) | Shortcode(code: string)

  /** A piece and the stretch `from..to` of the message that it stands for. */
  datatype Placed = Placed(piece: Piece, from: nat, to: nat)

  type Validity = string -> bool

  /** Two successive colons with a valid code between them. */
  ghost predicate Span(s: string, valid: Validity, i: int, j: int) {
    0 <= i < j < |s| && s[i] == ':' && s[j] == ':' && (forall k :: i < k < j ==> s[k] != ':') && valid(s[i + 1..j])
  }

  ghost predicate Covered(s: string, valid: Validity, p: int) {
    exists i, j :: Span(s, valid, i, j) && i <= p <= j
  }

  /** A stretch outside every span that reaches as far as it can. */
  ghost predicate Gap(s: string, valid: Validity, from: nat, to: nat) {
    && from < to <= |s|
    && (forall p :: from <= p < to ==> !Covered(s, valid, p))
    && (from == 0 || Covered(s, valid, from - 1))
    && (to == |s| || Covered(s, valid, to))
  }

  /** What a piece of the message may be. */
  ghost predicate IsPiece(s: string, valid: Validity, x: Placed) {
    x.from < x.to <= |s| &&
    match x.piece
    case Text(text) => Gap(s, valid, x.from, x.to) && text == s[x.from..x.to]
    case Shortcode(code) => Span(s, valid, x.from, x.to - 1) && code == s[x.from + 1..x.to - 1]
  }

  ghost predicate InOrder(xs: seq<Placed>) {
    forall i, j :: 0 <= i < j < |xs| ==> xs[i].from < xs[j].from
  }

  /** Every span and every gap of the message, once each, from left to right. */
  ghost predicate Splits(s: string, valid: Validity, xs: seq<Placed>) {
    InOrder(xs) && forall x :: x in xs <==> IsPiece(s, valid, x)
  }

  function Plain(xs: seq<Placed>): seq<Piece> {
    seq(|xs|, i requires 0 <= i < |xs| => xs[i].piece)
  }

  /** The pieces of a message, without their places. */
  ghost predicate IsSplit(s: string, valid: Validity, out: seq<Piece>) {
    exists xs :: Splits(s, valid, xs) && out == Plain(xs)
  }

  function FindColon(s: string, from: nat): (at: Option<nat>)
    requires from <= |s|
    ensures at.Some? ==> from <= at.value < |s| && s[at.value] == ':' && forall k :: from <= k < at.value ==> s[k] != ':'
    ensures at.None? ==> forall k :: from <= k < |s| ==> s[k] != ':'
    decreases |s| - from
  {
    if from == |s| then None else if s[from] == ':' then Some(from) else FindColon(s, from + 1)
  }

  // ---------------------------------------------------------------- the scanner

  /** The pieces found lie before `i`, and end by `cursor`. */
  ghost predicate Behind(s: string, valid: Validity, xs: seq<Placed>, cursor: nat, i: nat) {
    forall x :: x in xs ==> IsPiece(s, valid, x) && x.from < i && x.to <= cursor
  }

  ghost predicate SpansFound(s: string, valid: Validity, xs: seq<Placed>, cursor: nat, i: nat) {
    forall a, b :: Span(s, valid, a, b) && a < i ==> b < cursor && Placed(Shortcode(s[a + 1..b]), a, b + 1) in xs
  }

  ghost predicate GapsFound(s: string, valid: Validity, xs: seq<Placed>, cursor: nat) {
    forall x :: IsPiece(s, valid, x) && x.piece.Text? && x.to < cursor ==> x in xs
  }

  /** A span that starts at `a`, before `i`, ends just before `cursor`. */
  ghost predicate EndsAt(s: string, valid: Validity, a: int, cursor: int, i: int) {
    a < i && Span(s, valid, a, cursor - 1)
  }

  /** How far the scan has come; `cursor` is where the last span ended. */
  ghost predicate Scanned(s: string, valid: Validity, xs: seq<Placed>, cursor: nat, i: nat) {
    && cursor <= i + 1 && cursor <= |s|
    && InOrder(xs) && Behind(s, valid, xs, cursor, i)
    && SpansFound(s, valid, xs, cursor, i) && GapsFound(s, valid, xs, cursor)
    && (cursor == 0 || exists a :: EndsAt(s, valid, a, cursor, i))
  }

  lemma Uncovered(s: string, valid: Validity, xs: seq<Placed>, cursor: nat, i: nat)
    requires Scanned(s, valid, xs, cursor, i)
    ensures forall p :: cursor <= p < i ==> !Covered(s, valid, p)
    ensures cursor > 0 ==> Covered(s, valid, cursor - 1)
  {
    hide InOrder, Behind, GapsFound, Gap, IsPiece;
    forall p | cursor <= p < i ensures !Covered(s, valid, p) {
      assert forall a, b :: Span(s, valid, a, b) ==> b < p || p < a;
    }
    if cursor > 0 {
      var a :| EndsAt(s, valid, a, cursor, i);
      assert Span(s, valid, a, cursor - 1);
    }
  }

  ghost predicate NoSpanFrom(s: string, valid: Validity, i: nat, next: nat) {
    forall a, b :: Span(s, valid, a, b) ==> a < i || next <= a
  }

  lemma ScanOn(s: string, valid: Validity, xs: seq<Placed>, cursor: nat, i: nat, next: nat)
    requires Scanned(s, valid, xs, cursor, i) && i <= next && NoSpanFrom(s, valid, i, next)
    ensures Scanned(s, valid, xs, cursor, next)
  {
    hide InOrder, GapsFound, IsPiece, Span;
    if cursor > 0 {
      var a :| EndsAt(s, valid, a, cursor, i);
      assert EndsAt(s, valid, a, cursor, next);
    }
  }

  /** The gap before a span, if there is one. */
  function GapBefore(s: string, cursor: nat, i: nat): seq<Placed>
    requires i <= |s|
  {
    if cursor < i then [Placed(Text(s[cursor..i]), cursor, i)] else []
  }

  function Found(s: string, cursor: nat, i: nat, close: nat): seq<Placed>
    requires i < close < |s|
  {
    GapBefore(s, cursor, i) + [Placed(Shortcode(s[i + 1..close]), i, close + 1)]
  }

  lemma GapIsPiece(s: string, valid: Validity, xs: seq<Placed>, cursor: nat, i: nat)
    requires Scanned(s, valid, xs, cursor, i) && i <= |s| && (i < |s| ==> Covered(s, valid, i))
    ensures forall x :: x in GapBefore(s, cursor, i) ==> IsPiece(s, valid, x)
  {
    hide Covered, Behind, InOrder, SpansFound, GapsFound, Span;
    Uncovered(s, valid, xs, cursor, i);
    hide Scanned;
    if cursor < i {
      assert Gap(s, valid, cursor, i);
    }
  }

  lemma Appended(xs: seq<Placed>, more: seq<Placed>, cursor: nat, i: nat)
    requires InOrder(xs) && InOrder(more)
    requires forall x :: x in xs ==> x.from < i && x.from < cursor
    requires forall x :: x in more ==> x.from >= i || x.from >= cursor
    ensures InOrder(xs + more)
  {
    forall a, b | 0 <= a < b < |xs + more| ensures (xs + more)[a].from < (xs + more)[b].from {
      assert a < |xs| ==> (xs + more)[a] in xs;
      assert b >= |xs| ==> (xs + more)[b] in more;
    }
  }

  lemma ScanSpan(s: string, valid: Validity, xs: seq<Placed>, cursor: nat, i: nat, close: nat)
    requires Scanned(s, valid, xs, cursor, i) && Span(s, valid, i, close)
    ensures Scanned(s, valid, xs + Found(s, cursor, i, close), close + 1, close)
  {
    assert EndsAt(s, valid, i, close + 1, close);
    FoundInOrder(s, valid, xs, cursor, i, close);
    FoundBehind(s, valid, xs, cursor, i, close);
    FoundSpans(s, valid, xs, cursor, i, close);
    FoundGaps(s, valid, xs, cursor, i, close);
  }

  lemma BehindMeans(s: string, valid: Validity, xs: seq<Placed>, cursor: nat, i: nat)
    requires Behind(s, valid, xs, cursor, i)
    ensures forall x :: x in xs ==> x.from < i && x.from < cursor
  {
    hide Gap, Span;
  }

  lemma FoundInOrder(s: string, valid: Validity, xs: seq<Placed>, cursor: nat, i: nat, close: nat)
    requires Scanned(s, valid, xs, cursor, i) && Span(s, valid, i, close)
    ensures InOrder(xs + Found(s, cursor, i, close))
  {
    hide IsPiece, SpansFound, GapsFound, Behind;
    BehindMeans(s, valid, xs, cursor, i);
    FoundOrder(s, cursor, i, close);
    Appended(xs, Found(s, cursor, i, close), cursor, i);
  }

  lemma FoundOrder(s: string, cursor: nat, i: nat, close: nat)
    requires i < close < |s|
    ensures InOrder(Found(s, cursor, i, close))
    ensures forall x :: x in Found(s, cursor, i, close) ==> x.from >= i || x.from >= cursor
  {
  }

  lemma FoundBehind(s: string, valid: Validity, xs: seq<Placed>, cursor: nat, i: nat, close: nat)
    requires Scanned(s, valid, xs, cursor, i) && Span(s, valid, i, close)
    ensures Behind(s, valid, xs + Found(s, cursor, i, close), close + 1, close)
  {
    SpanIsPiece(s, valid, i, close);
    hide IsPiece, SpansFound, GapsFound, InOrder, Span, Covered, Found, GapBefore, Behind;
    GapIsPiece(s, valid, xs, cursor, i);
    FoundReach(s, cursor, i, close);
    BehindJoins(s, valid, xs, Found(s, cursor, i, close), cursor, i, close);
  }

  lemma SpanIsPiece(s: string, valid: Validity, i: nat, close: nat)
    requires Span(s, valid, i, close)
    ensures IsPiece(s, valid, Placed(Shortcode(s[i + 1..close]), i, close + 1)) && Covered(s, valid, i)
  {
  }

  lemma FoundReach(s: string, cursor: nat, i: nat, close: nat)
    requires i < close < |s|
    ensures forall x :: x in Found(s, cursor, i, close) ==> x.from < close && x.to <= close + 1
    ensures forall x :: x in Found(s, cursor, i, close) ==>
              x in GapBefore(s, cursor, i) || x == Placed(Shortcode(s[i + 1..close]), i, close + 1)
  {
  }

  lemma BehindJoins(s: string, valid: Validity, xs: seq<Placed>, more: seq<Placed>, cursor: nat, i: nat, close: nat)
    requires Behind(s, valid, xs, cursor, i) && cursor <= close + 1 && i <= close
    requires forall x :: x in more ==> IsPiece(s, valid, x) && x.from < close && x.to <= close + 1
    ensures Behind(s, valid, xs + more, close + 1, close)
  {
    hide IsPiece;
  }

  lemma FoundSpans(s: string, valid: Validity, xs: seq<Placed>, cursor: nat, i: nat, close: nat)
    requires Scanned(s, valid, xs, cursor, i) && Span(s, valid, i, close)
    ensures SpansFound(s, valid, xs + Found(s, cursor, i, close), close + 1, close)
  {
    hide InOrder, Behind, GapsFound, GapBefore;
    var all := xs + Found(s, cursor, i, close);
    assert all[|all| - 1] == Placed(Shortcode(s[i + 1..close]), i, close + 1);
    forall a, b | Span(s, valid, a, b) && a < close
      ensures b < close + 1 && Placed(Shortcode(s[a + 1..b]), a, b + 1) in all
    {
      assert a == i ==> b == close;
    }
  }

  lemma FoundGaps(s: string, valid: Validity, xs: seq<Placed>, cursor: nat, i: nat, close: nat)
    requires Scanned(s, valid, xs, cursor, i) && Span(s, valid, i, close)
    ensures GapsFound(s, valid, xs + Found(s, cursor, i, close), close + 1)
  {
    assert forall p :: i <= p <= close ==> Covered(s, valid, p);
    Uncovered(s, valid, xs, cursor, i);
    forall x | IsPiece(s, valid, x) && x.piece.Text? && x.to < close + 1 ensures x in xs + Found(s, cursor, i, close) {
      hide Covered, Span, Behind, SpansFound, InOrder;
      assert !Covered(s, valid, x.to - 1) && x.to <= i;
      if x.to >= cursor {
        SameGap(s, valid, x, cursor, i);
        assert x == GapBefore(s, cursor, i)[0];
      }
    }
  }

  /** A gap that reaches past `cursor` is the one from there to `end`. */
  lemma SameGap(s: string, valid: Validity, x: Placed, cursor: nat, end: nat)
    requires IsPiece(s, valid, x) && x.piece.Text? && cursor <= x.to <= end <= |s|
    requires cursor > 0 ==> Covered(s, valid, cursor - 1)
    requires forall p :: cursor <= p < end ==> !Covered(s, valid, p)
    ensures cursor < end && x == Placed(Text(s[cursor..end]), cursor, end)
  {
    hide Covered;
    assert !Covered(s, valid, x.from) && !Covered(s, valid, x.to - 1);
  }

  lemma ScanStarts(s: string, valid: Validity)
    ensures Scanned(s, valid, [], 0, 0)
  {
  }

  /** `out` grows by the pieces found. */
  lemma PlainGrows(xs: seq<Placed>, ys: seq<Placed>)
    ensures Plain(xs + ys) == Plain(xs) + Plain(ys)
  {
  }

  method SplitShortcodes(s: string, valid: Validity) returns (out: seq<Piece>)
    ensures IsSplit(s, valid, out)
  {
    out := [];
    ghost var xs: seq<Placed> := [];
    var cursor, i := 0, 0;
    ScanStarts(s, valid);
    hide Scanned, Splits;
    while i < |s|
      invariant i <= |s| && Scanned(s, valid, xs, cursor, i) && out == Plain(xs)
      decreases |s| - i
    {
      if s[i] != ':' {
        assert NoSpanFrom(s, valid, i, i + 1);
        ScanOn(s, valid, xs, cursor, i, i + 1);
        i := i + 1;
        continue;
      }
      var found := FindColon(s, i + 1);
      if found.None? {
        assert NoSpanFrom(s, valid, i, |s|);
        ScanOn(s, valid, xs, cursor, i, |s|);
        break;
      }
      var close := found.value;
      var code := s[i + 1..close];
      if valid(code) {
        ScanSpan(s, valid, xs, cursor, i, close);
        PlainGrows(xs, Found(s, cursor, i, close));
        PlainGrows(GapBefore(s, cursor, i), [Placed(Shortcode(code), i, close + 1)]);
        xs := xs + Found(s, cursor, i, close);
        if cursor < i {
          out := out + [Text(s[cursor..i])];
        }
        out := out + [Shortcode(code)];
        cursor := close + 1;
      } else {
        OnlyOneClose(s, valid, i, close);
        ScanOn(s, valid, xs, cursor, i, close);
      }
      i := close;
    }
    ScanEnds(s, valid, xs, cursor);
    if cursor < |s| {
      assert s[cursor..] == s[cursor..|s|];
      out := out + [Text(s[cursor..])];
    }
    PlainGrows(xs, GapBefore(s, cursor, |s|));
    xs := xs + GapBefore(s, cursor, |s|);
  }

  lemma OnlyOneClose(s: string, valid: Validity, i: nat, close: nat)
    requires i < close < |s| && s[close] == ':' && (forall k :: i < k < close ==> s[k] != ':') && !valid(s[i + 1..close])
    ensures NoSpanFrom(s, valid, i, close)
  {
    forall a, b | Span(s, valid, a, b) ensures a < i || close <= a {
      assert a == i ==> b == close;
    }
  }

  lemma ScanEnds(s: string, valid: Validity, xs: seq<Placed>, cursor: nat)
    requires Scanned(s, valid, xs, cursor, |s|)
    ensures Splits(s, valid, xs + GapBefore(s, cursor, |s|))
  {
    var all := xs + GapBefore(s, cursor, |s|);
    hide Covered, SpansFound, GapsFound, IsPiece, InOrder;
    GapIsPiece(s, valid, xs, cursor, |s|);
    BehindMeans(s, valid, xs, cursor, |s|);
    GapOrder(s, cursor);
    Appended(xs, GapBefore(s, cursor, |s|), cursor, |s|);
    forall x | IsPiece(s, valid, x) ensures x in all {
      AllFound(s, valid, xs, cursor, x);
    }
  }

  lemma GapOrder(s: string, cursor: nat)
    ensures InOrder(GapBefore(s, cursor, |s|)) && forall x :: x in GapBefore(s, cursor, |s|) ==> x.from >= cursor
  {
  }

  lemma SpanIsPlaced(s: string, valid: Validity, xs: seq<Placed>, cursor: nat, x: Placed)
    requires SpansFound(s, valid, xs, cursor, |s|) && IsPiece(s, valid, x) && x.piece.Shortcode?
    ensures x in xs
  {
    assert Span(s, valid, x.from, x.to - 1);
    assert x == Placed(Shortcode(s[x.from + 1..x.to - 1]), x.from, x.to - 1 + 1);
  }

  lemma AllFound(s: string, valid: Validity, xs: seq<Placed>, cursor: nat, x: Placed)
    requires Scanned(s, valid, xs, cursor, |s|) && IsPiece(s, valid, x)
    ensures x in xs + GapBefore(s, cursor, |s|)
  {
    hide Covered, Behind, InOrder, Gap, Span;
    match x.piece {
      case Shortcode(_) =>
        assert Span(s, valid, x.from, x.to - 1);
        SpanIsPlaced(s, valid, xs, cursor, x);
      case Text(_) =>
        if x.to >= cursor {
          Uncovered(s, valid, xs, cursor, |s|);
          SameGap(s, valid, x, cursor, |s|);
          assert x == GapBefore(s, cursor, |s|)[0];
        }
    }
  }

  // ---------------------------------------------------------------- what the pieces say

  /** The description leaves no choice: a message splits in one way only. */
  lemma SplitIsUnique(s: string, valid: Validity, a: seq<Piece>, b: seq<Piece>)
    requires IsSplit(s, valid, a) && IsSplit(s, valid, b)
    ensures a == b
  {
    var xs :| Splits(s, valid, xs) && a == Plain(xs);
    var ys :| Splits(s, valid, ys) && b == Plain(ys);
    SameElements(xs, ys);
  }

  lemma {:induction false} SameElements(xs: seq<Placed>, ys: seq<Placed>)
    requires InOrder(xs) && InOrder(ys) && forall x :: x in xs <==> x in ys
    ensures xs == ys
  {
    HasFirst(xs);
    HasFirst(ys);
    if xs != [] {
      FirstIsLeast(xs, ys[0]);
      FirstIsLeast(ys, xs[0]);
      FirstIsOne(xs, ys[0]);
      forall x ensures x in xs[1..] <==> x in ys[1..] {
        RestIsOthers(xs, x);
        RestIsOthers(ys, x);
      }
      SameElements(xs[1..], ys[1..]);
      assert xs == [xs[0]] + xs[1..] && ys == [ys[0]] + ys[1..];
    }
  }

  lemma HasFirst(xs: seq<Placed>)
    ensures xs != [] ==> xs[0] in xs
  {
  }

  lemma FirstIsLeast(xs: seq<Placed>, x: Placed)
    requires InOrder(xs) && x in xs
    ensures xs[0].from <= x.from
  {
  }

  lemma FirstIsOne(xs: seq<Placed>, x: Placed)
    requires InOrder(xs) && x in xs && x.from <= xs[0].from
    ensures x == xs[0]
  {
  }

  lemma RestIsOthers(xs: seq<Placed>, x: Placed)
    requires InOrder(xs) && xs != []
    ensures x in xs[1..] <==> x in xs && x != xs[0]
  {
    assert xs == [xs[0]] + xs[1..];
  }

  /** The pieces put together again. */
  function Whole(out: seq<Piece>): string {
    if out == [] then ""
    else Whole(out[..|out| - 1]) + match out[|out| - 1] case Text(text) => text case Shortcode(code) => ":" + code + ":"
  }

  /** A colon before `i` closes one code and opens the next. */
  ghost predicate SharedBefore(s: string, valid: Validity, i: int) {
    exists a, b, c :: b < i && Span(s, valid, a, b) && Span(s, valid, b, c)
  }

  lemma {:induction false} WholeAppend(xs: seq<Piece>, ys: seq<Piece>)
    ensures Whole(xs + ys) == Whole(xs) + Whole(ys)
  {
    if ys == [] {
      assert xs + ys == xs;
    } else {
      var front, last := ys[..|ys| - 1], [ys[|ys| - 1]];
      assert (xs + ys)[..|xs + ys| - 1] == xs + front && (xs + ys)[|xs + ys| - 1] == ys[|ys| - 1];
      WholeAppend(xs, front);
    }
  }

  lemma WholeGap(s: string, cursor: nat, i: nat)
    requires i <= |s|
    ensures Whole(Plain(GapBefore(s, cursor, i))) == if cursor < i then s[cursor..i] else ""
  {
    if cursor < i {
      var gap := Plain(GapBefore(s, cursor, i));
      assert gap == [Text(s[cursor..i])] && gap[..0] == [];
    }
  }

  lemma WholeFound(s: string, valid: Validity, cursor: nat, i: nat, close: nat)
    requires Span(s, valid, i, close)
    ensures Whole(Plain(Found(s, cursor, i, close))) == (if cursor < i then s[cursor..i] else "") + s[i..close + 1]
  {
    SpanText(s, valid, i, close);
    hide Whole, Plain, Span, GapBefore;
    var code := [Placed(Shortcode(s[i + 1..close]), i, close + 1)];
    WholeGap(s, cursor, i);
    WholeCode(s[i + 1..close], i, close + 1);
    PlainGrows(GapBefore(s, cursor, i), code);
    WholeAppend(Plain(GapBefore(s, cursor, i)), Plain(code));
  }

  lemma WholeCode(code: string, from: nat, to: nat)
    ensures Whole(Plain([Placed(Shortcode(code), from, to)])) == ":" + code + ":"
  {
    var pieces := [Shortcode(code)];
    assert Plain([Placed(Shortcode(code), from, to)]) == pieces && pieces[..0] == [];
    assert Whole(pieces) == "" + (":" + code + ":");
  }

  lemma SpanText(s: string, valid: Validity, i: nat, close: nat)
    requires Span(s, valid, i, close)
    ensures s[i..close + 1] == ":" + s[i + 1..close] + ":"
  {
  }

  /** The pieces found so far are the message up to `cursor`, longer by the `shared` colons. */
  ghost predicate Rebuilt(s: string, xs: seq<Placed>, cursor: nat, shared: nat) {
    && cursor <= |s| && |Whole(Plain(xs))| == cursor + shared
    && (shared == 0 ==> Whole(Plain(xs)) == s[..cursor])
  }

  lemma RebuiltSpan(s: string, valid: Validity, xs: seq<Placed>, cursor: nat, i: nat, close: nat, shared: nat)
    requires Rebuilt(s, xs, cursor, shared) && Span(s, valid, i, close) && cursor <= i + 1
    ensures Rebuilt(s, xs + Found(s, cursor, i, close), close + 1, shared + if cursor == i + 1 then 1 else 0)
  {
    hide Whole, Plain, Found, Span;
    SpanEnds(s, valid, i, close);
    var front, all := Whole(Plain(xs)), Whole(Plain(xs + Found(s, cursor, i, close)));
    assert all == front + ((if cursor < i then s[cursor..i] else "") + s[i..close + 1]) by {
      PlainGrows(xs, Found(s, cursor, i, close));
      WholeAppend(Plain(xs), Plain(Found(s, cursor, i, close)));
      WholeFound(s, valid, cursor, i, close);
    }
    if cursor <= i {
      JoinThree(s, cursor, i, close + 1);
      assert cursor == i ==> s[cursor..i] == "";
    }
  }

  lemma SpanEnds(s: string, valid: Validity, i: int, close: int)
    requires Span(s, valid, i, close)
    ensures 0 <= i < close < |s|
  {
  }

  lemma JoinThree(s: string, a: nat, b: nat, c: nat)
    requires a <= b <= c <= |s|
    ensures s[..c] == s[..a] + (s[a..b] + s[b..c])
  {
  }

  /** A span at `i` shares its first colon exactly when the scan's last span ended there. */
  lemma SharedAt(s: string, valid: Validity, xs: seq<Placed>, cursor: nat, i: nat, close: nat)
    requires Scanned(s, valid, xs, cursor, i) && Span(s, valid, i, close)
    ensures SharedBefore(s, valid, close) <==> SharedBefore(s, valid, i) || cursor == i + 1
  {
    hide InOrder, Behind, GapsFound;
    if cursor == i + 1 {
      var a :| EndsAt(s, valid, a, cursor, i);
      assert Span(s, valid, a, i) && Span(s, valid, i, close);
    }
    if SharedBefore(s, valid, close) {
      var a, b, c :| b < close && Span(s, valid, a, b) && Span(s, valid, b, c);
      assert b <= i;
    }
  }

  lemma SharedOn(s: string, valid: Validity, i: nat, next: nat)
    requires NoSpanFrom(s, valid, i, next) && i <= next
    ensures SharedBefore(s, valid, next) <==> SharedBefore(s, valid, i)
  {
    hide Span;
  }

  /** From where the scan stands, the message is put together again unless colons are shared. */
  lemma {:induction false} ScanRebuilds(s: string, valid: Validity, xs: seq<Placed>, cursor: nat, i: nat, shared: nat)
    requires i <= |s| && Scanned(s, valid, xs, cursor, i) && Rebuilt(s, xs, cursor, shared)
    requires SharedBefore(s, valid, i) <==> shared > 0
    ensures exists out :: IsSplit(s, valid, out) && (Whole(out) == s <==> !SharedBefore(s, valid, |s|))
    decreases |s| - i
  {
    hide Scanned, Rebuilt, SharedBefore, Splits, Whole, Plain;
    if i == |s| {
      RebuildEnds(s, valid, xs, cursor, shared);
    } else if s[i] != ':' || FindColon(s, i + 1).None? {
      var next := if s[i] != ':' then i + 1 else |s|;
      assert NoSpanFrom(s, valid, i, next);
      ScanOn(s, valid, xs, cursor, i, next);
      SharedOn(s, valid, i, next);
      ScanRebuilds(s, valid, xs, cursor, next, shared);
    } else {
      var close := FindColon(s, i + 1).value;
      if valid(s[i + 1..close]) {
        ScanSpan(s, valid, xs, cursor, i, close);
        SharedAt(s, valid, xs, cursor, i, close);
        CursorInReach(s, valid, xs, cursor, i);
        RebuiltSpan(s, valid, xs, cursor, i, close, shared);
        ScanRebuilds(s, valid, xs + Found(s, cursor, i, close), close + 1, close,
                     shared + if cursor == i + 1 then 1 else 0);
      } else {
        OnlyOneClose(s, valid, i, close);
        ScanOn(s, valid, xs, cursor, i, close);
        SharedOn(s, valid, i, close);
        ScanRebuilds(s, valid, xs, cursor, close, shared);
      }
    }
  }

  lemma CursorInReach(s: string, valid: Validity, xs: seq<Placed>, cursor: nat, i: nat)
    requires Scanned(s, valid, xs, cursor, i)
    ensures cursor <= i + 1
  {
  }

  lemma RebuildEnds(s: string, valid: Validity, xs: seq<Placed>, cursor: nat, shared: nat)
    requires Scanned(s, valid, xs, cursor, |s|) && Rebuilt(s, xs, cursor, shared)
    ensures exists out :: IsSplit(s, valid, out) && (Whole(out) == s <==> shared == 0)
  {
    hide Scanned, Splits, Whole, Plain, Rebuilt, GapBefore;
    ScanEnds(s, valid, xs, cursor);
    RebuiltWhole(s, xs, cursor, shared);
    assert IsSplit(s, valid, Plain(xs + GapBefore(s, cursor, |s|)));
  }

  lemma RebuiltWhole(s: string, xs: seq<Placed>, cursor: nat, shared: nat)
    requires Rebuilt(s, xs, cursor, shared)
    ensures Whole(Plain(xs + GapBefore(s, cursor, |s|))) == s <==> shared == 0
  {
    hide Whole, Plain, GapBefore;
    var all, front := Whole(Plain(xs + GapBefore(s, cursor, |s|))), Whole(Plain(xs));
    assert all == front + s[cursor..|s|] by {
      PlainGrows(xs, GapBefore(s, cursor, |s|));
      WholeAppend(Plain(xs), Plain(GapBefore(s, cursor, |s|)));
      WholeGap(s, cursor, |s|);
    }
    JoinThree(s, cursor, |s|, |s|);
    assert s[..|s|] == s && s[|s|..|s|] == "" && s[cursor..|s|] + "" == s[cursor..|s|];
    assert |all| == |s| + shared;
  }

  /** The pieces give the message back if and only if no colon both closes a code and opens the next. */
  lemma PiecesGiveTheMessageBack(s: string, valid: Validity, out: seq<Piece>)
    requires IsSplit(s, valid, out)
    ensures Whole(out) == s <==> !exists a, b, c :: Span(s, valid, a, b) && Span(s, valid, b, c)
  {
    ScanStarts(s, valid);
    ScanRebuilds(s, valid, [], 0, 0, 0);
    var same :| IsSplit(s, valid, same) && (Whole(same) == s <==> !SharedBefore(s, valid, |s|));
    SplitIsUnique(s, valid, out, same);
  }

  /** Messages without shared colons are told apart by their pieces. */
  lemma PiecesTellMessagesApart(s: string, t: string, valid: Validity, out: seq<Piece>)
    requires IsSplit(s, valid, out) && IsSplit(t, valid, out) && s != t
    ensures exists m, a, b, c :: m in {s, t} && Span(m, valid, a, b) && Span(m, valid, b, c)
  {
    hide Span, IsSplit;
    PiecesGiveTheMessageBack(s, valid, out);
    PiecesGiveTheMessageBack(t, valid, out);
  }

  /** The smallest example: the codes share a colon in the one message and not in the other. */
  lemma PiecesForgetSharedColons(valid: Validity)
    requires valid("a") && valid("b") && !valid("")
    ensures exists out :: IsSplit(":a:b:", valid, out) && IsSplit(":a::b:", valid, out)
  {
    var s, t := ":a:b:", ":a::b:";
    var xs := [Placed(Shortcode("a"), 0, 3), Placed(Shortcode("b"), 2, 5)];
    var ys := [Placed(Shortcode("a"), 0, 3), Placed(Shortcode("b"), 3, 6)];
    assert s[1..2] == "a" && s[3..4] == "b" && t[1..2] == "a" && t[4..5] == "b" && t[3..3] == "";
    assert Span(s, valid, 0, 2) && Span(s, valid, 2, 4) && Span(t, valid, 0, 2) && Span(t, valid, 3, 5);
    forall i, j | Span(s, valid, i, j) ensures (i == 0 && j == 2) || (i == 2 && j == 4) {
      assert s[2] == ':';
    }
    forall i, j | Span(t, valid, i, j) ensures (i == 0 && j == 2) || (i == 3 && j == 5) {
      assert t[2] == ':' && t[3] == ':';
    }
    SplitWhenCovered(s, valid, xs);
    SplitWhenCovered(t, valid, ys);
    assert Plain(xs) == Plain(ys);
    assert IsSplit(s, valid, Plain(xs)) && IsSplit(t, valid, Plain(xs));
  }

  lemma CoveredIsNoGap(s: string, valid: Validity, from: nat, to: nat)
    requires Covered(s, valid, from)
    ensures !Gap(s, valid, from, to)
  {
    hide Covered;
  }

  lemma SplitWhenCovered(s: string, valid: Validity, xs: seq<Placed>)
    requires InOrder(xs) && (forall p :: 0 <= p < |s| ==> Covered(s, valid, p))
    requires forall x :: x in xs ==> IsPiece(s, valid, x)
    requires forall i, j :: Span(s, valid, i, j) ==> Placed(Shortcode(s[i + 1..j]), i, j + 1) in xs
    ensures Splits(s, valid, xs)
  {
    forall x | IsPiece(s, valid, x) ensures x in xs {
      assert Covered(s, valid, x.from);
      hide Covered, InOrder;
      PieceOfCovered(s, valid, x);
      assert x == Placed(Shortcode(s[x.from + 1..x.to - 1]), x.from, x.to - 1 + 1);
    }
  }

  lemma PieceOfCovered(s: string, valid: Validity, x: Placed)
    requires IsPiece(s, valid, x) && Covered(s, valid, x.from)
    ensures x.piece.Shortcode? && Span(s, valid, x.from, x.to - 1) && x.piece.code == s[x.from + 1..x.to - 1]
  {
    hide Covered, Span;
    CoveredIsNoGap(s, valid, x.from, x.to);
  }

  // ---------------------------------------------------------------- tags of a direct message

  const DM_INLINE_MAX: nat := 16 * 1024
  const DM_INLINE_BUDGET: nat := 40 * 1024

  datatype Tag = Tag(code: string, url: string)

  datatype Tally = Tally(tags: seq<Tag>, skipped: seq<string>, spent: nat)

  predicate Tagged(tags: seq<Tag>, code: string) {
    exists i :: 0 <= i < |tags| && tags[i].code == code
  }

  type Urls = string -> Option<string>

  predicate Hosted(url: string) {
    "https://" <= url
  }

  /** The picture may ride in the message, with `spent` bytes already taken. */
  predicate Fits(url: string, spent: nat) {
    "data:" <= url && Bytes(url) <= DM_INLINE_MAX && spent + Bytes(url) <= DM_INLINE_BUDGET
  }

  function Codes(pieces: seq<Piece>): seq<string> {
    if pieces == [] then []
    else
      var last := pieces[|pieces| - 1];
      Codes(pieces[..|pieces| - 1]) + if last.Shortcode? then [last.code] else []
  }

  function Count(t: Tally, code: string, urlOf: Urls): Tally {
    if Tagged(t.tags, code) || code in t.skipped then t
    else match urlOf(code)
      case None => t
      case Some(url) =>
        if Hosted(url) then t.(tags := t.tags + [Tag(code, url)])
        else if Fits(url, t.spent) then t.(tags := t.tags + [Tag(code, url)], spent := t.spent + Bytes(url))
        else t.(skipped := t.skipped + [code])
  }

  function Tallied(codes: seq<string>, urlOf: Urls): Tally {
    if codes == [] then Tally([], [], 0)
    else Count(Tallied(codes[..|codes| - 1], urlOf), codes[|codes| - 1], urlOf)
  }

  method DmEmojiTags(content: string, valid: Validity, urlOf: Urls)
    returns (tags: seq<Tag>, skipped: seq<string>)
    ensures exists pieces :: IsSplit(content, valid, pieces) &&
              var t := Tallied(Codes(pieces), urlOf); tags == t.tags && skipped == t.skipped
  {
    var pieces := SplitShortcodes(content, valid);
    assert pieces[..0] == [] && pieces[..|pieces|] == pieces;
    tags, skipped := [], [];
    var spent: nat := 0;
    assert Tally(tags, skipped, spent) == Tallied(Codes(pieces[..0]), urlOf);
    hide IsSplit, Bytes, Hosted, Fits, Codes, Tallied, Tagged;
    for i := 0 to |pieces|
      invariant Tally(tags, skipped, spent) == Tallied(Codes(pieces[..i]), urlOf)
    {
      TallyNext(pieces, i, urlOf);
      if pieces[i].Shortcode? {
        var code := pieces[i].code;
        if !Tagged(tags, code) && code !in skipped {
          match urlOf(code) {
            case None =>
            case Some(url) =>
              if Hosted(url) {
                tags := tags + [Tag(code, url)];
              } else if Fits(url, spent) {
                spent := spent + Bytes(url);
                tags := tags + [Tag(code, url)];
              } else {
                skipped := skipped + [code];
              }
          }
        }
      }
    }
  }

  lemma TallyNext(pieces: seq<Piece>, i: nat, urlOf: Urls)
    requires i < |pieces|
    ensures var before, after := Tallied(Codes(pieces[..i]), urlOf), Tallied(Codes(pieces[..i + 1]), urlOf);
            after == if pieces[i].Shortcode? then Count(before, pieces[i].code, urlOf) else before
  {
    assert pieces[..i + 1][..i] == pieces[..i];
    hide Count;
    if pieces[i].Shortcode? {
      var codes := Codes(pieces[..i]) + [pieces[i].code];
      assert Codes(pieces[..i + 1]) == codes && codes[..|codes| - 1] == Codes(pieces[..i]);
      assert Tallied(codes, urlOf) == Count(Tallied(codes[..|codes| - 1], urlOf), codes[|codes| - 1], urlOf);
    } else {
      assert Codes(pieces[..i + 1]) == Codes(pieces[..i]) + [] == Codes(pieces[..i]);
    }
  }

  /** The codes of a message are those of its pieces, piece by piece. */
  lemma {:induction false} CodesOfPieces(a: seq<Piece>, b: seq<Piece>, code: string, text: string)
    ensures Codes(a + b) == Codes(a) + Codes(b)
    ensures Codes([]) == [] && Codes([Text(text)]) == [] && Codes([Shortcode(code)]) == [code]
  {
    if b == [] {
      assert a + b == a;
    } else {
      var front, last := b[..|b| - 1], b[|b| - 1];
      assert (a + b)[..|a + b| - 1] == a + front && (a + b)[|a + b| - 1] == last;
      CodesOfPieces(a, front, code, text);
    }
  }

  /** The bytes of the pictures that ride in the message: of all urls but those of a blob server. */
  function InlineBytes(tags: seq<Tag>): nat {
    if tags == [] then 0
    else
      var url := tags[|tags| - 1].url;
      InlineBytes(tags[..|tags| - 1]) + if "https://" <= url then 0 else Bytes(url)
  }

  /** With these tags before it, a picture may be tagged. */
  predicate Admissible(url: string, before: seq<Tag>) {
    "https://" <= url ||
    ("data:" <= url && Bytes(url) <= 16 * 1024 && InlineBytes(before) + Bytes(url) <= 40 * 1024)
  }

  function FirstUse(codes: seq<string>, code: string): nat {
    if codes == [] || codes[0] == code then 0 else 1 + FirstUse(codes[1..], code)
  }

  lemma {:induction false} FirstUseGrows(codes: seq<string>, last: string, code: string)
    ensures code in codes ==> FirstUse(codes + [last], code) == FirstUse(codes, code) < |codes|
    ensures code !in codes ==> FirstUse(codes, code) == |codes| && (code == last ==> FirstUse(codes + [last], code) == |codes|)
  {
    if codes != [] && codes[0] != code {
      assert (codes + [last])[1..] == codes[1..] + [last];
      assert codes == [codes[0]] + codes[1..];
      FirstUseGrows(codes[1..], last, code);
    }
  }

  /** Every known code is tagged or skipped, once in all, and the pictures inlined stay within the budget. */
  ghost predicate Sound(t: Tally, codes: seq<string>, urlOf: Urls) {
    && (forall c :: Tagged(t.tags, c) || c in t.skipped <==> c in codes && urlOf(c).Some?)
    && (forall c :: !(Tagged(t.tags, c) && c in t.skipped))
    && (forall i, j :: 0 <= i < j < |t.skipped| ==> t.skipped[i] != t.skipped[j])
    && t.spent == InlineBytes(t.tags) <= 40 * 1024
  }

  /** Tags carry the code's own picture, small enough, in order of first use. */
  ghost predicate TagsSound(t: Tally, codes: seq<string>, urlOf: Urls) {
    && (forall i :: 0 <= i < |t.tags| ==> TagSound(t.tags[i], codes, urlOf))
    && forall i, j :: 0 <= i < j < |t.tags| ==> FirstUse(codes, t.tags[i].code) < FirstUse(codes, t.tags[j].code)
  }

  ghost predicate TagSound(tag: Tag, codes: seq<string>, urlOf: Urls) {
    && tag.code in codes && urlOf(tag.code) == Some(tag.url)
    && ("https://" <= tag.url || ("data:" <= tag.url && Bytes(tag.url) <= 16 * 1024))
  }

  lemma {:induction false} TallyIsSound(codes: seq<string>, urlOf: Urls)
    ensures Sound(Tallied(codes, urlOf), codes, urlOf)
    ensures TagsSound(Tallied(codes, urlOf), codes, urlOf)
  {
    if codes != [] {
      var p, c := codes[..|codes| - 1], codes[|codes| - 1];
      TallyIsSound(p, urlOf);
      assert codes == p + [c];
      CountIsSound(Tallied(p, urlOf), p, c, urlOf);
      CountTags(Tallied(p, urlOf), p, c, urlOf);
    }
  }

  lemma TagsOneMore(tags: seq<Tag>, tag: Tag)
    ensures forall c :: Tagged(tags + [tag], c) <==> Tagged(tags, c) || c == tag.code
    ensures InlineBytes(tags + [tag]) == InlineBytes(tags) + if "https://" <= tag.url then 0 else Bytes(tag.url)
  {
    assert (tags + [tag])[..|tags|] == tags && (tags + [tag])[|tags|] == tag;
    assert InlineBytes(tags + [tag]) == InlineBytes(tags) + if "https://" <= tag.url then 0 else Bytes(tag.url);
    hide InlineBytes, Bytes;
    forall c | Tagged(tags, c) ensures Tagged(tags + [tag], c) {
      var i :| 0 <= i < |tags| && tags[i].code == c;
      assert (tags + [tag])[i].code == c;
    }
  }

  lemma CountIsSound(t: Tally, codes: seq<string>, c: string, urlOf: Urls)
    requires Sound(t, codes, urlOf)
    ensures Sound(Count(t, c, urlOf), codes + [c], urlOf)
  {
    hide Bytes, InlineBytes, Tagged;
    if urlOf(c).Some? {
      TagsOneMore(t.tags, Tag(c, urlOf(c).value));
    }
  }

  lemma CountTags(t: Tally, codes: seq<string>, c: string, urlOf: Urls)
    requires Sound(t, codes, urlOf) && TagsSound(t, codes, urlOf)
    ensures TagsSound(Count(t, c, urlOf), codes + [c], urlOf)
  {
    hide Bytes, InlineBytes;
    var more := Count(t, c, urlOf);
    forall x ensures x in codes ==> FirstUse(codes + [c], x) == FirstUse(codes, x) < |codes| {
      FirstUseGrows(codes, c, x);
    }
    FirstUseGrows(codes, c, c);
    forall i | 0 <= i < |t.tags| ensures TagSound(t.tags[i], codes + [c], urlOf) {
      assert TagSound(t.tags[i], codes, urlOf);
    }
    if more.tags != t.tags {
      assert c !in codes by {
        assert !(Tagged(t.tags, c) || c in t.skipped) && urlOf(c).Some?;
      }
    }
  }

  /**
    A code that has a picture is left as text exactly if, at its first use, the picture is on no blob server and is
    no inline one that is small enough, by itself and beside those tagged before.
  */
  lemma {:induction false} SkippedForCause(codes: seq<string>, urlOf: Urls, code: string)
    ensures code in Tallied(codes, urlOf).skipped <==>
            code in codes && urlOf(code).Some? && FirstUse(codes, code) <= |codes| &&
            !Admissible(urlOf(code).value, Tallied(codes[..FirstUse(codes, code)], urlOf).tags)
  {
    if codes != [] {
      var p, c := codes[..|codes| - 1], codes[|codes| - 1];
      assert codes == p + [c];
      SkippedForCause(p, urlOf, code);
      TallyIsSound(p, urlOf);
      FirstUseGrows(p, c, code);
      var n := FirstUse(codes, code);
      assert code in p ==> codes[..n] == p[..n];
      assert code !in p && code == c ==> codes[..n] == p;
      assert Tallied(codes, urlOf) == Count(Tallied(p, urlOf), c, urlOf);
      hide Tallied, FirstUse, TagsSound;
      SkippedStep(Tallied(p, urlOf), p, c, urlOf, code);
    }
  }

  lemma SkippedStep(t: Tally, p: seq<string>, c: string, urlOf: Urls, code: string)
    requires Sound(t, p, urlOf)
    ensures code in Count(t, c, urlOf).skipped <==>
            code in t.skipped ||
            (code == c && code !in p && urlOf(c).Some? && !Admissible(urlOf(c).value, t.tags))
  {
    hide Bytes, InlineBytes, Tagged;
  }
}
