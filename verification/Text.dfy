/** Strings as sequences of Unicode scalar values, with the length of their UTF-8 form. */
module Text {
  /** The White_Space property of Unicode, which trimming goes by. */
  predicate IsSpace(c: char) {
    var u := c as int;
    0x09 <= u <= 0x0D || u == 0x20 || u == 0x85 || u == 0xA0 || u == 0x1680 || 0x2000 <= u <= 0x200A ||
    u == 0x2028 || u == 0x2029 || u == 0x202F || u == 0x205F || u == 0x3000
  }

  function CharBytes(c: char): (n: nat)
    ensures 1 <= n <= 4
  {
    var u := c as int;
    if u < 0x80 then 1 else if u < 0x800 then 2 else if u < 0x1_0000 then 3 else 4
  }

  function Bytes(s: string): nat {
    if s == "" then 0 else CharBytes(s[0]) + Bytes(s[1..])
  }

  /** The UTF-8 form of a code point. */
  function Utf8(u: int): seq<int>
    requires 0 <= u < 0x11_0000
  {
    if u < 0x80 then [u]
    else if u < 0x800 then [0xC0 + u / 0x40, 0x80 + u % 0x40]
    else if u < 0x1_0000 then [0xE0 + u / 0x1000, 0x80 + u / 0x40 % 0x40, 0x80 + u % 0x40]
    else [0xF0 + u / 0x4_0000, 0x80 + u / 0x1000 % 0x40, 0x80 + u / 0x40 % 0x40, 0x80 + u % 0x40]
  }

  /** A character counts as many bytes as its UTF-8 form has, each in the range of its place. */
  lemma BytesOfUtf8(c: char)
    ensures 0 <= c as int < 0x11_0000
    ensures var bytes := Utf8(c as int);
            && Bytes([c]) == |bytes|
            && (if |bytes| == 1 then bytes[0] < 0x80 else if |bytes| == 2 then 0xC2 <= bytes[0] < 0xE0
                else if |bytes| == 3 then 0xE0 <= bytes[0] < 0xF0 else 0xF0 <= bytes[0] < 0xF5)
            && forall i :: 0 < i < |bytes| ==> 0x80 <= bytes[i] < 0xC0
  {
    assert [c][1..] == "";
  }

  function TrimStart(s: string): string {
    if s != "" && IsSpace(s[0]) then TrimStart(s[1..]) else s
  }

  function TrimEnd(s: string): string {
    if s != "" && IsSpace(s[|s| - 1]) then TrimEnd(s[..|s| - 1]) else s
  }

  function Trim(s: string): string {
    TrimStart(TrimEnd(s))
  }

  predicate EndsSolid(s: string) {
    s == "" || !IsSpace(s[|s| - 1])
  }

  ghost predicate Blank(s: string) {
    forall i :: 0 <= i < |s| ==> IsSpace(s[i])
  }

  lemma {:induction false} BytesAppend(a: string, b: string)
    ensures Bytes(a + b) == Bytes(a) + Bytes(b)
  {
    if a == "" {
      assert a + b == b;
    } else {
      BytesAppend(a[1..], b);
      assert (a + b)[1..] == a[1..] + b;
    }
  }

  lemma {:induction false} TrimStartKeeps(s: string)
    ensures |TrimStart(s)| <= |s| && TrimStart(s) == s[|s| - |TrimStart(s)|..] && Blank(s[..|s| - |TrimStart(s)|])
    ensures TrimStart(s) != "" ==> !IsSpace(TrimStart(s)[0])
    ensures Bytes(TrimStart(s)) <= Bytes(s)
  {
    if s != "" && IsSpace(s[0]) {
      TrimStartKeeps(s[1..]);
      var gap := s[..|s| - |TrimStart(s)|];
      assert gap[1..] == s[1..][..|s| - 1 - |TrimStart(s)|];
    }
  }

  lemma {:induction false} TrimEndKeeps(s: string)
    ensures |TrimEnd(s)| <= |s| && TrimEnd(s) == s[..|TrimEnd(s)|] && Blank(s[|TrimEnd(s)|..])
    ensures EndsSolid(TrimEnd(s)) && (s != "" && !IsSpace(s[0]) ==> TrimEnd(s) != "")
    ensures Bytes(TrimEnd(s)) <= Bytes(s)
  {
    if s != "" && IsSpace(s[|s| - 1]) {
      var p, c := s[..|s| - 1], s[|s| - 1];
      assert TrimEnd(s) == TrimEnd(p) && s == p + [c];
      TrimEndKeeps(p);
      BytesAppend(p, [c]);
      hide Bytes, TrimEnd, IsSpace;
      var n := |TrimEnd(p)|;
      assert s[..n] == p[..n] && s[n..] == p[n..] + [c] && (p != "" ==> s[0] == p[0]);
    }
  }

  /** Trimming takes whitespace off both ends, all of it, and nothing else. */
  lemma TrimKeeps(s: string)
    ensures exists before, after :: Blank(before) && Blank(after) && s == before + Trim(s) + after
    ensures Trim(s) != "" ==> !IsSpace(Trim(s)[0])
    ensures EndsSolid(Trim(s)) && Bytes(Trim(s)) <= Bytes(s)
  {
    hide TrimEnd, TrimStart, Blank, IsSpace, Bytes;
    var t := TrimEnd(s);
    TrimEndKeeps(s);
    TrimStartKeeps(t);
    var before, after := t[..|t| - |Trim(s)|], s[|t|..];
    assert s == t + after;
    if Trim(s) != "" {
      assert Trim(s)[|Trim(s)| - 1] == t[|t| - 1];
    }
    assert t == before + Trim(s);
  }

  lemma SolidIsNotBlank(s: string)
    requires s != "" && EndsSolid(s)
    ensures !Blank(s)
  {
  }

  // ---------------------------------------------------------------- byte offsets

  predicate IsBoundary(s: string, i: nat) {
    i == 0 || (s != "" && i >= CharBytes(s[0]) && IsBoundary(s[1..], i - CharBytes(s[0])))
  }

  /** How many characters lie before the boundary at byte `i`. */
  function CharsBefore(s: string, i: nat): nat
    requires IsBoundary(s, i)
  {
    if i == 0 then 0 else 1 + CharsBefore(s[1..], i - CharBytes(s[0]))
  }

  /** How many characters fit in `limit` bytes. */
  function Fit(s: string, limit: nat): (k: nat)
    ensures k <= |s|
  {
    if s == "" || CharBytes(s[0]) > limit then 0 else 1 + Fit(s[1..], limit - CharBytes(s[0]))
  }

  lemma {:induction false} FitIsGreatest(s: string, limit: nat)
    ensures var k := Fit(s, limit);
            Bytes(s[..k]) <= limit && (k < |s| ==> Bytes(s[..k + 1]) > limit)
  {
    if s != "" && CharBytes(s[0]) <= limit {
      var k := Fit(s[1..], limit - CharBytes(s[0]));
      FitIsGreatest(s[1..], limit - CharBytes(s[0]));
      assert s[..k + 1][1..] == s[1..][..k];
      if k + 1 < |s| {
        assert s[..k + 2][1..] == s[1..][..k + 1];
      }
    } else if s != "" {
      assert s[..1][1..] == "";
    }
  }

  lemma {:induction false} LastBoundaryIsFit(s: string, limit: nat, j: nat)
    requires IsBoundary(s, j) && j <= limit
    requires forall k :: j < k <= limit ==> !IsBoundary(s, k)
    ensures CharsBefore(s, j) == Fit(s, limit)
  {
    if s != "" && CharBytes(s[0]) <= limit {
      var c := CharBytes(s[0]);
      assert IsBoundary(s[1..], 0) && IsBoundary(s, c);
      assert j >= c;
      forall k | j - c < k <= limit - c ensures !IsBoundary(s[1..], k) {
        assert !IsBoundary(s, k + c);
      }
      LastBoundaryIsFit(s[1..], limit - c, j - c);
    }
  }
}
