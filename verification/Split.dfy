/** Cutting a reply into messages that fit the channel's byte limit. */
module Split {
  import opened Text
  import opened Wrappers

  const MORE: string := "\U{2026}"

  /** The last position of `c`. */
  function RFind(s: string, c: char): (found: Option<nat>)
    ensures found.Some? ==> found.value < |s|
  {
    if s == "" then None else if s[|s| - 1] == c then Some(|s| - 1) else RFind(s[..|s| - 1], c)
  }

  lemma {:induction false} RFindIsLast(s: string, c: char)
    ensures var found := RFind(s, c);
            if found.Some? then s[found.value] == c && forall j :: found.value < j < |s| ==> s[j] != c
            else forall j :: 0 <= j < |s| ==> s[j] != c
  {
    if s != "" && s[|s| - 1] != c {
      RFindIsLast(s[..|s| - 1], c);
    }
  }

  /** Where a part ends: at the last line break of the window, else its last space, past half the limit. */
  function CutPoint(rest: string, maxBytes: nat): (k: nat)
    ensures k <= Fit(rest, maxBytes) <= |rest|
  {
    var hard := Fit(rest, maxBytes);
    var window := rest[..hard];
    var soft := if RFind(window, '\n').Some? then RFind(window, '\n') else RFind(window, ' ');
    if soft.Some? && Bytes(rest[..soft.value]) > maxBytes / 2 then soft.value else hard
  }

  /** The parts of trimmed text `rest`, at most `n` of them. */
  function Parts(rest: string, maxBytes: nat, n: nat): seq<string>
    requires maxBytes >= 3
    decreases n
  {
    if rest == "" || n == 0 then []
    else if Bytes(rest) <= maxBytes then [rest]
    else if n == 1 then
      [TrimEnd(rest[..Fit(rest, maxBytes - 3)]) + MORE]
    else
      var k := CutPoint(rest, maxBytes);
      [TrimEnd(rest[..k])] + Parts(TrimStart(rest[k..]), maxBytes, n - 1)
  }

  lemma CutInside(rest: string, maxBytes: nat)
    ensures Bytes(rest[..CutPoint(rest, maxBytes)]) <= maxBytes
    ensures maxBytes >= 4 && rest != "" ==> CutPoint(rest, maxBytes) > 0
  {
    FitIsGreatest(rest, maxBytes);
    var hard, k := Fit(rest, maxBytes), CutPoint(rest, maxBytes);
    assert rest[..hard] == rest[..k] + rest[k..hard];
    BytesAppend(rest[..k], rest[k..hard]);
  }

  // ---------------------------------------------------------------- the algorithm

  method FloorBoundary(s: string, start: nat) returns (i: nat)
    ensures i <= start && IsBoundary(s, i)
    ensures forall k :: i < k <= start ==> !IsBoundary(s, k)
    ensures CharsBefore(s, i) == Fit(s, start)
  {
    i := start;
    while !IsBoundary(s, i)
      invariant i <= start
      invariant forall k :: i < k <= start ==> !IsBoundary(s, k)
      decreases i
    {
      i := i - 1;
    }
    LastBoundaryIsFit(s, start, i);
  }

  /** A limit below three bytes has no room for the ellipsis, and the source underflows. */
  method SplitReply(text: string, maxBytes: nat, maxParts: nat) returns (out: seq<string>)
    requires maxBytes >= 3
    ensures out == Parts(Trim(text), maxBytes, maxParts)
  {
    hide Trim, TrimEnd, TrimStart, CutPoint, IsBoundary, CharsBefore;
    out := [];
    var rest := Trim(text);
    while rest != "" && |out| < maxParts
      invariant |out| <= maxParts
      invariant out + Parts(rest, maxBytes, maxParts - |out|) == Parts(Trim(text), maxBytes, maxParts)
      decreases maxParts - |out|
    {
      if Bytes(rest) <= maxBytes {
        out := out + [rest];
        return;
      }
      if |out| + 1 == maxParts {
        var cut := FloorBoundary(rest, maxBytes - Bytes(MORE));
        out := out + [TrimEnd(rest[..CharsBefore(rest, cut)]) + MORE];
        return;
      }
      var cut := FindCut(rest, maxBytes);
      PartsStep(rest, maxBytes, maxParts - |out|);
      Reassociate(out, TrimEnd(rest[..cut]), Parts(TrimStart(rest[cut..]), maxBytes, maxParts - |out| - 1));
      out, rest := out + [TrimEnd(rest[..cut])], TrimStart(rest[cut..]);
    }
  }

  lemma Reassociate(a: seq<string>, x: string, b: seq<string>)
    ensures (a + [x]) + b == a + ([x] + b)
  {
  }

  /** One cut, as a count of characters. */
  method FindCut(rest: string, maxBytes: nat) returns (cut: nat)
    ensures cut == CutPoint(rest, maxBytes)
  {
    FitIsGreatest(rest, maxBytes);
    var hard := FloorBoundary(rest, maxBytes);
    var window := rest[..CharsBefore(rest, hard)];
    var soft := RFind(window, '\n');
    if soft.None? {
      soft := RFind(window, ' ');
    }
    if soft.Some? {
      assert window[..soft.value] == rest[..soft.value];
    }
    cut := if soft.Some? && Bytes(window[..soft.value]) > maxBytes / 2 then soft.value else |window|;
  }

  // ---------------------------------------------------------------- what the parts are

  ghost predicate AllFit(parts: seq<string>, maxBytes: nat) {
    forall i :: 0 <= i < |parts| ==> Bytes(parts[i]) <= maxBytes && (maxBytes >= 4 ==> parts[i] != "")
  }

  /** At most `n` parts, each within the limit and, from four bytes on, none empty. */
  lemma {:induction false} PartsFit(rest: string, maxBytes: nat, n: nat)
    requires maxBytes >= 3 && (rest != "" ==> !IsSpace(rest[0]))
    ensures |Parts(rest, maxBytes, n)| <= n
    ensures AllFit(Parts(rest, maxBytes, n), maxBytes)
    decreases n
  {
    hide *;
    if rest == "" || n == 0 || Bytes(rest) <= maxBytes || n == 1 {
      FewPartsFit(rest, maxBytes, n);
    } else {
      PartFits(rest, maxBytes);
      PartsFit(TrimStart(rest[CutPoint(rest, maxBytes)..]), maxBytes, n - 1);
      NextPartFits(rest, maxBytes, n);
    }
  }

  lemma FewPartsFit(rest: string, maxBytes: nat, n: nat)
    requires maxBytes >= 3 && (rest == "" || n == 0 || Bytes(rest) <= maxBytes || n == 1)
    ensures |Parts(rest, maxBytes, n)| <= n && AllFit(Parts(rest, maxBytes, n), maxBytes)
  {
    LastPartFits(rest, maxBytes);
  }

  lemma NextPartFits(rest: string, maxBytes: nat, n: nat)
    requires maxBytes >= 3 && n > 1 && rest != "" && Bytes(rest) > maxBytes && !IsSpace(rest[0])
    requires var others := Parts(TrimStart(rest[CutPoint(rest, maxBytes)..]), maxBytes, n - 1);
             |others| <= n - 1 && AllFit(others, maxBytes)
    ensures |Parts(rest, maxBytes, n)| <= n && AllFit(Parts(rest, maxBytes, n), maxBytes)
  {
    PartFits(rest, maxBytes);
    PartsStep(rest, maxBytes, n);
    var k := CutPoint(rest, maxBytes);
    AllFitCons(TrimEnd(rest[..k]), Parts(TrimStart(rest[k..]), maxBytes, n - 1), maxBytes);
  }

  lemma AllFitCons(first: string, others: seq<string>, maxBytes: nat)
    requires Bytes(first) <= maxBytes && (maxBytes >= 4 ==> first != "") && AllFit(others, maxBytes)
    ensures AllFit([first] + others, maxBytes)
  {
  }

  lemma PartsStep(rest: string, maxBytes: nat, n: nat)
    requires maxBytes >= 3 && n > 1 && rest != "" && Bytes(rest) > maxBytes
    ensures var k := CutPoint(rest, maxBytes);
            Parts(rest, maxBytes, n) == [TrimEnd(rest[..k])] + Parts(TrimStart(rest[k..]), maxBytes, n - 1)
  {
  }

  lemma LastPartFits(rest: string, maxBytes: nat)
    requires maxBytes >= 3
    ensures var k := Fit(rest, maxBytes - 3);
            Bytes(TrimEnd(rest[..k]) + MORE) <= maxBytes
  {
    FitIsGreatest(rest, maxBytes - 3);
    var kept := rest[..Fit(rest, maxBytes - 3)];
    TrimEndKeeps(kept);
    BytesAppend(TrimEnd(kept), MORE);
    assert Bytes(MORE) == 3 by { assert MORE[1..] == ""; }
  }

  lemma PartFits(rest: string, maxBytes: nat)
    requires rest != "" ==> !IsSpace(rest[0])
    ensures var k := CutPoint(rest, maxBytes);
            Bytes(TrimEnd(rest[..k])) <= maxBytes &&
            (maxBytes >= 4 && rest != "" ==> TrimEnd(rest[..k]) != "") &&
            (TrimStart(rest[k..]) != "" ==> !IsSpace(TrimStart(rest[k..])[0]))
  {
    CutInside(rest, maxBytes);
    var k := CutPoint(rest, maxBytes);
    TrimEndKeeps(rest[..k]);
    TrimStartKeeps(rest[k..]);
  }

  // ---------------------------------------------------------------- what the parts say

  /** `rest` is the pieces in order, each as it is, with whitespace only after each, and then what is `left`. */
  ghost predicate Reads(rest: string, pieces: seq<string>, left: string)
    decreases |pieces|
  {
    if pieces == [] then rest == left
    else exists next: nat :: ReadsTo(rest, pieces[0], next) && Reads(rest[next..], pieces[1..], left)
  }

  /** `rest` starts with `piece`, then whitespace up to position `next`. */
  ghost predicate ReadsTo(rest: string, piece: string, next: nat) {
    |piece| <= next <= |rest| && rest[..|piece|] == piece && Blank(rest[|piece|..next])
  }

  /** What is shown of the pieces: an ellipsis ends them if some text is left over. */
  function Shown(pieces: seq<string>, left: string): seq<string> {
    if left == "" || pieces == [] then pieces
    else pieces[..|pieces| - 1] + [pieces[|pieces| - 1] + MORE]
  }

  /** The parts hold the text, or all `n` hold its beginning, and the last says that more, not only blanks, is left. */
  ghost predicate Carries(rest: string, parts: seq<string>, n: nat) {
    exists pieces, left :: CarriesAs(rest, parts, n, pieces, left)
  }

  ghost predicate CarriesAs(rest: string, parts: seq<string>, n: nat, pieces: seq<string>, left: string) {
    Reads(rest, pieces, left) && parts == Shown(pieces, left) && (left != "" ==> |pieces| == n >= 1 && !Blank(left))
  }

  lemma ReadsCons(rest: string, piece: string, next: nat, pieces: seq<string>, left: string)
    requires ReadsTo(rest, piece, next) && Reads(rest[next..], pieces, left)
    ensures Reads(rest, [piece] + pieces, left)
  {
    assert ([piece] + pieces)[1..] == pieces;
  }

  lemma ReadsOne(rest: string, piece: string, next: nat)
    requires ReadsTo(rest, piece, next)
    ensures Reads(rest, [piece], rest[next..])
  {
    assert [piece][1..] == [] && Reads(rest[next..], [], rest[next..]);
  }

  /** Cut at `k` and trimmed on both sides of the cut, a text starts with the piece before it. */
  lemma CutReads(rest: string, k: nat)
    requires k <= |rest|
    ensures var next := |rest| - |TrimStart(rest[k..])|;
            k <= next <= |rest| && ReadsTo(rest, TrimEnd(rest[..k]), next) && rest[next..] == TrimStart(rest[k..])
    ensures ReadsTo(rest, TrimEnd(rest[..k]), k)
  {
    hide TrimStart, TrimEnd, Blank, Bytes, EndsSolid;
    TrimEndKeeps(rest[..k]);
    TrimStartKeeps(rest[k..]);
    var piece, next := |TrimEnd(rest[..k])|, |rest| - |TrimStart(rest[k..])|;
    Slices(rest, piece, k, next);
    BlankJoin(rest, piece, k, next);
  }

  lemma Slices(s: string, a: nat, b: nat, c: nat)
    requires a <= b <= c <= |s|
    ensures s[..b][..a] == s[..a] && s[..b][a..] == s[a..b] && s[b..][..c - b] == s[b..c] && s[b..][c - b..] == s[c..]
  {
  }

  lemma BlankJoin(s: string, a: nat, b: nat, c: nat)
    requires a <= b <= c <= |s| && Blank(s[a..b]) && Blank(s[b..c])
    ensures Blank(s[a..c])
  {
    hide IsSpace;
    forall i | 0 <= i < c - a ensures IsSpace(s[a..c][i]) {
      if a + i < b {
        assert s[a..c][i] == s[a..b][i];
      } else {
        assert s[a..c][i] == s[b..c][a + i - b];
      }
    }
  }

  lemma {:induction false} PartsCarry(rest: string, maxBytes: nat, n: nat)
    requires maxBytes >= 3 && n >= 1 && EndsSolid(rest)
    ensures Carries(rest, Parts(rest, maxBytes, n), n)
    decreases n
  {
    hide *;
    if rest == "" || Bytes(rest) <= maxBytes || n == 1 {
      FewPartsCarry(rest, maxBytes, n);
    } else {
      SolidTail(rest, CutPoint(rest, maxBytes));
      PartsCarry(TrimStart(rest[CutPoint(rest, maxBytes)..]), maxBytes, n - 1);
      NextPartCarries(rest, maxBytes, n);
    }
  }

  lemma SolidTail(rest: string, k: nat)
    requires EndsSolid(rest) && k <= |rest|
    ensures EndsSolid(TrimStart(rest[k..]))
  {
    TrimStartKeeps(rest[k..]);
    hide TrimStart, Bytes, IsSpace;
  }

  lemma FewPartsCarry(rest: string, maxBytes: nat, n: nat)
    requires maxBytes >= 3 && n >= 1 && (rest == "" || Bytes(rest) <= maxBytes || n == 1) && EndsSolid(rest)
    ensures Carries(rest, Parts(rest, maxBytes, n), n)
  {
    if rest == "" {
      assert Reads(rest, [], "") && CarriesAs(rest, [], n, [], "");
    } else if Bytes(rest) <= maxBytes {
      ReadsOne(rest, rest, |rest|);
      assert rest[|rest|..] == "" && CarriesAs(rest, [rest], n, [rest], "");
    } else {
      var k := Fit(rest, maxBytes - 3);
      FitIsGreatest(rest, maxBytes - 3);
      assert rest[..|rest|] == rest;
      LastPartCarries(rest, k);
    }
  }

  lemma LastPartCarries(rest: string, k: nat)
    requires k < |rest| && EndsSolid(rest)
    ensures Carries(rest, [TrimEnd(rest[..k]) + MORE], 1)
  {
    hide Reads, ReadsTo, Blank, TrimEnd, TrimStart, IsSpace;
    var piece := TrimEnd(rest[..k]);
    CutReads(rest, k);
    ReadsOne(rest, piece, k);
    SolidIsNotBlank(rest[k..]);
    assert Shown([piece], rest[k..]) == [piece + MORE];
    assert CarriesAs(rest, [piece + MORE], 1, [piece], rest[k..]);
  }

  lemma NextPartCarries(rest: string, maxBytes: nat, n: nat)
    requires maxBytes >= 3 && n > 1 && rest != "" && Bytes(rest) > maxBytes
    requires var tail := TrimStart(rest[CutPoint(rest, maxBytes)..]); Carries(tail, Parts(tail, maxBytes, n - 1), n - 1)
    ensures Carries(rest, Parts(rest, maxBytes, n), n)
  {
    hide *;
    PartsStep(rest, maxBytes, n);
    CarryOver(rest, CutPoint(rest, maxBytes), Parts(TrimStart(rest[CutPoint(rest, maxBytes)..]), maxBytes, n - 1), n);
  }

  lemma CarryOver(rest: string, k: nat, others: seq<string>, n: nat)
    requires n > 1 && k <= |rest| && Carries(TrimStart(rest[k..]), others, n - 1)
    ensures Carries(rest, [TrimEnd(rest[..k])] + others, n)
  {
    var piece, tail := TrimEnd(rest[..k]), TrimStart(rest[k..]);
    var pieces, left :| CarriesAs(tail, others, n - 1, pieces, left);
    hide Reads, ReadsTo, Blank, TrimStart, TrimEnd;
    CutReads(rest, k);
    ReadsCons(rest, piece, |rest| - |tail|, pieces, left);
    ShownCons(piece, pieces, left);
    assert CarriesAs(rest, [piece] + others, n, [piece] + pieces, left);
  }

  lemma ShownCons(piece: string, pieces: seq<string>, left: string)
    requires left == "" || pieces != []
    ensures Shown([piece] + pieces, left) == [piece] + Shown(pieces, left)
  {
  }

  /** A text that fits is its own only part; otherwise the parts carry the text, in few parts that fit. */
  lemma SplitKeepsItsPromise(text: string, maxBytes: nat, maxParts: nat)
    requires maxBytes >= 4
    ensures var out := Parts(Trim(text), maxBytes, maxParts);
            && |out| <= maxParts
            && (forall i :: 0 <= i < |out| ==> out[i] != "" && Bytes(out[i]) <= maxBytes)
            && (maxParts >= 1 ==> Carries(Trim(text), out, maxParts))
            && (maxParts == 0 || Trim(text) == "" <==> out == [])
            && (maxParts >= 1 && Trim(text) != "" && Bytes(Trim(text)) <= maxBytes ==> out == [Trim(text)])
  {
    TrimKeeps(text);
    PartsFit(Trim(text), maxBytes, maxParts);
    if maxParts >= 1 {
      PartsCarry(Trim(text), maxBytes, maxParts);
    }
  }

  /** What `n` parts carry at least. */
  function Room(maxBytes: nat, n: nat): nat
    requires n >= 1
  {
    maxBytes + (n - 1) * (maxBytes / 2)
  }

  lemma RoomForOneMore(maxBytes: nat, n: nat)
    requires n >= 1
    ensures if n == 1 then Room(maxBytes, n) == maxBytes else Room(maxBytes, n) == Room(maxBytes, n - 1) + maxBytes / 2
  {
  }

  /** A text is cut short only if it is long: each part but the last takes half the limit or more. */
  lemma {:induction false} ShortIsWhole(rest: string, maxBytes: nat, n: nat)
    requires maxBytes >= 5 && n >= 1 && Bytes(rest) <= Room(maxBytes, n)
    ensures Reads(rest, Parts(rest, maxBytes, n), "")
    decreases n
  {
    if rest == "" || Bytes(rest) <= maxBytes {
      OnePartIsWhole(rest, maxBytes, n);
    } else {
      hide *;
      var k := CutPoint(rest, maxBytes);
      ShortStep(rest, maxBytes, n);
      ShortIsWhole(TrimStart(rest[k..]), maxBytes, n - 1);
      ReadsStep(rest, maxBytes, n);
    }
  }

  lemma ReadsStep(rest: string, maxBytes: nat, n: nat)
    requires maxBytes >= 3 && n > 1 && Bytes(rest) > maxBytes && rest != ""
    requires var tail := TrimStart(rest[CutPoint(rest, maxBytes)..]); Reads(tail, Parts(tail, maxBytes, n - 1), "")
    ensures Reads(rest, Parts(rest, maxBytes, n), "")
  {
    hide *;
    var k := CutPoint(rest, maxBytes);
    var tail := TrimStart(rest[k..]);
    PartsStep(rest, maxBytes, n);
    CutReads(rest, k);
    ReadsCons(rest, TrimEnd(rest[..k]), |rest| - |tail|, Parts(tail, maxBytes, n - 1), "");
  }

  lemma ShortStep(rest: string, maxBytes: nat, n: nat)
    requires maxBytes >= 5 && n >= 1 && maxBytes < Bytes(rest) <= Room(maxBytes, n)
    ensures n > 1 && Bytes(TrimStart(rest[CutPoint(rest, maxBytes)..])) <= Room(maxBytes, n - 1)
  {
    hide *;
    var k := CutPoint(rest, maxBytes);
    RoomForOneMore(maxBytes, n);
    CutTakesHalf(rest, maxBytes);
    assert rest == rest[..k] + rest[k..];
    BytesAppend(rest[..k], rest[k..]);
    TrimStartKeeps(rest[k..]);
  }

  lemma OnePartIsWhole(rest: string, maxBytes: nat, n: nat)
    requires maxBytes >= 3 && n >= 1 && (rest == "" || Bytes(rest) <= maxBytes)
    ensures Reads(rest, Parts(rest, maxBytes, n), "")
  {
    if rest != "" {
      ReadsOne(rest, rest, |rest|);
    }
  }

  lemma CutTakesHalf(rest: string, maxBytes: nat)
    requires maxBytes >= 5 && Bytes(rest) > maxBytes
    ensures Bytes(rest[..CutPoint(rest, maxBytes)]) >= maxBytes / 2
  {
    var hard := Fit(rest, maxBytes);
    FitIsGreatest(rest, maxBytes);
    assert rest[..|rest|] == rest && rest[..hard + 1] == rest[..hard] + [rest[hard]];
    BytesAppend(rest[..hard], [rest[hard]]);
    assert Bytes([rest[hard]]) == CharBytes(rest[hard]) by { assert [rest[hard]][1..] == ""; }
  }

  /** No part is ever empty, whatever the text, if and only if the limit is four bytes or more. */
  lemma FourBytesAreNeeded(maxBytes: nat)
    requires maxBytes >= 3
    ensures (forall t: string, n: nat :: NoneEmpty(Parts(Trim(t), maxBytes, n))) <==> maxBytes >= 4
  {
    if maxBytes >= 4 {
      forall t: string, n: nat ensures NoneEmpty(Parts(Trim(t), maxBytes, n)) {
        SplitKeepsItsPromise(t, maxBytes, n);
      }
    } else {
      var t := "\U{1F600}\U{1F600}";
      ThreeBytesAreTooFew();
      assert Trim(t) == t;
      assert !NoneEmpty(Parts(Trim(t), maxBytes, 2));
    }
  }

  predicate NoneEmpty(parts: seq<string>) {
    "" !in parts
  }

  /** With three bytes, far less than any caller's limit, a four-byte character gives an empty part. */
  lemma ThreeBytesAreTooFew()
    ensures var parts := Parts("\U{1F600}\U{1F600}", 3, 2); parts != [] && parts[0] == ""
  {
    var s := "\U{1F600}\U{1F600}";
    assert s[1..] == "\U{1F600}";
    assert Bytes(s) == 4 + Bytes(s[1..]) && Fit(s, 3) == 0;
    assert CutPoint(s, 3) == 0;
  }

  /**
    The window is the most characters within the limit.  A part ends before it is full only at the window's last line
    break, or its last space if it has no line break, past half the limit; and it is full only if that is not so.
  */
  ghost predicate GoodCut(rest: string, maxBytes: nat, k: nat, window: nat) {
    && k <= window <= |rest|
    && Bytes(rest[..window]) <= maxBytes && (window < |rest| ==> Bytes(rest[..window + 1]) > maxBytes)
    && (k < window ==>
          && Bytes(rest[..k]) > maxBytes / 2
          && (rest[k] == '\n' || (rest[k] == ' ' && '\n' !in rest[..window]))
          && forall j :: k < j < window ==> rest[j] != rest[k])
    && (k == window ==>
          forall i :: 0 <= i < window && Bytes(rest[..i]) > maxBytes / 2 ==>
            rest[i] != '\n' && (rest[i] == ' ' ==> '\n' in rest[..window]))
  }

  lemma CutPrefersLines(rest: string, maxBytes: nat)
    ensures GoodCut(rest, maxBytes, CutPoint(rest, maxBytes), Fit(rest, maxBytes))
  {
    FitIsGreatest(rest, maxBytes);
    hide Fit, Bytes, RFind;
    var k, window := CutPoint(rest, maxBytes), Fit(rest, maxBytes);
    if k < window {
      RFindIsLast(rest[..window], '\n');
      RFindIsLast(rest[..window], ' ');
      assert rest[k] == rest[..window][k];
    } else {
      forall i | 0 <= i < window && Bytes(rest[..i]) > maxBytes / 2
        ensures rest[i] != '\n' && (rest[i] == ' ' ==> '\n' in rest[..window])
      {
        NoLaterBreak(rest, maxBytes, i);
      }
    }
  }

  /** A long text is cut well, trimmed at the cut, and goes on behind it. */
  lemma PartsCutWell(rest: string, maxBytes: nat, n: nat)
    requires maxBytes >= 3 && n > 1 && Bytes(rest) > maxBytes
    ensures exists k: nat, window: nat :: GoodCut(rest, maxBytes, k, window) && k <= |rest| &&
              Parts(rest, maxBytes, n) == [TrimEnd(rest[..k])] + Parts(TrimStart(rest[k..]), maxBytes, n - 1)
  {
    hide CutPoint, Fit, GoodCut, TrimEnd, TrimStart;
    CutPrefersLines(rest, maxBytes);
  }

  /** The last part allowed holds as much as fits beside its ellipsis. */
  lemma LastPartIsFull(rest: string, maxBytes: nat)
    requires maxBytes >= 3 && Bytes(rest) > maxBytes
    ensures exists k: nat :: k < |rest| && Bytes(rest[..k]) + 3 <= maxBytes < Bytes(rest[..k + 1]) + 3 &&
              Parts(rest, maxBytes, 1) == [TrimEnd(rest[..k]) + "\U{2026}"]
  {
    FitIsGreatest(rest, maxBytes - 3);
    assert rest[..|rest|] == rest;
  }

  /** Where no break is taken, none lies past half the limit. */
  lemma NoLaterBreak(rest: string, maxBytes: nat, i: nat)
    requires CutPoint(rest, maxBytes) == Fit(rest, maxBytes) && i < Fit(rest, maxBytes)
    requires Bytes(rest[..i]) > maxBytes / 2
    ensures rest[i] != '\n' && (rest[i] == ' ' ==> '\n' in rest[..Fit(rest, maxBytes)])
  {
    hide Fit, Bytes, RFind;
    var window := rest[..Fit(rest, maxBytes)];
    var line, space := RFind(window, '\n'), RFind(window, ' ');
    assert rest[i] == window[i];
    RFindIsLast(window, '\n');
    RFindIsLast(window, ' ');
    if line.Some? {
      LaterIsLonger(rest, i, line.value);
    } else if space.Some? {
      LaterIsLonger(rest, i, space.value);
    }
  }

  lemma LaterIsLonger(s: string, i: nat, j: nat)
    requires i <= |s| && j <= |s|
    ensures i <= j ==> Bytes(s[..i]) <= Bytes(s[..j])
  {
    if i <= j {
      assert s[..j] == s[..i] + s[i..j];
      BytesAppend(s[..i], s[i..j]);
    }
  }
}
