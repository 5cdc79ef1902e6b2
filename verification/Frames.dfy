/**
  The layout of an encrypted media frame: a clear header, then the sealed payload, its IV and a
  two-byte trailer, with emulation prevention (section 7.4.1 of ITU-T H.264) where NAL units demand it.
*/
module Frames {
  import opened Wrappers

  type byte = b: int | 0 <= b < 256
  type Bytes = seq<byte>

  const IV_LENGTH: nat := 12
  const TAG_LENGTH: nat := 16

  // ---------------------------------------------------------------- emulation prevention

  /** Byte `b` after `zeros` zero bytes would start a reserved pattern. */
  predicate Guarded(b: byte, zeros: nat) {
    b <= 3 && zeros >= 2
  }

  function ZerosAfter(b: byte, zeros: nat): nat {
    if b != 0 then 0 else if Guarded(b, zeros) then 1 else zeros + 1
  }

  function Escape(e: Bytes, zeros: nat): Bytes {
    if e == [] then []
    else
      var rest := [e[0]] + Escape(e[1..], ZerosAfter(e[0], zeros));
      if Guarded(e[0], zeros) then [3] + rest else rest
  }

  function Unescape(e: Bytes): Bytes {
    if e == [] then []
    else if |e| >= 3 && e[0] == 0 && e[1] == 0 && e[2] == 3 then [0, 0] + Unescape(e[3..])
    else [e[0]] + Unescape(e[1..])
  }

  /** The worker's test for escaped data: it stops short of the last three bytes. */
  predicate HasMarker(e: Bytes) {
    exists i :: 0 <= i < |e| - 3 && MarkerAt(e, i)
  }

  predicate MarkerAt(e: Bytes, i: int) {
    0 <= i < |e| - 2 && e[i] == 0 && e[i + 1] == 0 && e[i + 2] == 3
  }

  method EscapeBytes(e: Bytes) returns (t: Bytes)
    ensures t == Escape(e, 0)
  {
    t := [];
    var n := 0;
    for r := 0 to |e|
      invariant t + Escape(e[r..], n) == Escape(e, 0)
    {
      var i := e[r];
      assert e[r..][1..] == e[r + 1..];
      hide Escape;
      EscapeMore(t, e[r..], n);
      if i <= 3 && n >= 2 {
        t := t + [3];
        n := 0;
      }
      t := t + [i];
      n := if i == 0 then n + 1 else 0;
    }
  }

  /** What one turn of the escape loop appends. */
  lemma EscapeMore(t: Bytes, e: Bytes, zeros: nat)
    requires e != []
    ensures var rest := Escape(e[1..], ZerosAfter(e[0], zeros));
            t + Escape(e, zeros) == if Guarded(e[0], zeros) then t + [3] + [e[0]] + rest else t + [e[0]] + rest
  {
    var rest := Escape(e[1..], ZerosAfter(e[0], zeros));
    assert Escape(e, zeros) == if Guarded(e[0], zeros) then [3] + ([e[0]] + rest) else [e[0]] + rest;
    hide Escape, ZerosAfter, Guarded;
    PutTogether(t, [e[0]], rest);
    PutTogether(t + [3], [e[0]], rest);
    PutTogether(t, [3], [e[0]] + rest);
  }

  method UnescapeBytes(e: Bytes) returns (t: Bytes)
    ensures t == Unescape(e)
  {
    t := [];
    var r := 0;
    while r < |e|
      invariant r <= |e| && t + Unescape(e[r..]) == Unescape(e)
    {
      if |e| - r >= 3 && e[r] == 0 && e[r + 1] == 0 && e[r + 2] == 3 {
        assert e[r..][3..] == e[r + 3..];
        PutTogether(t, [e[r], e[r + 1]], Unescape(e[r + 3..]));
        t := t + [e[r], e[r + 1]];
        r := r + 3;
      } else {
        assert e[r..][1..] == e[r + 1..];
        PutTogether(t, [e[r]], Unescape(e[r + 1..]));
        t := t + [e[r]];
        r := r + 1;
      }
    }
  }

  method FindMarker(e: Bytes) returns (found: bool)
    ensures found == HasMarker(e)
  {
    var t := 0;
    while t < |e| - 3
      invariant 0 <= t && forall i :: 0 <= i < t && i < |e| - 3 ==> !MarkerAt(e, i)
    {
      if e[t] == 0 && e[t + 1] == 0 && e[t + 2] == 3 {
        assert MarkerAt(e, t);
        return true;
      }
      t := t + 1;
    }
    found := false;
  }

  function Zeros(n: nat): Bytes {
    if n == 0 then [] else [0] + Zeros(n - 1)
  }

  /** What the escaped bytes look like, one input byte at a time. */
  lemma EscapeStep(x: Bytes, zeros: nat)
    requires x != [] && zeros <= 2
    ensures var b, n, s := x[0], ZerosAfter(x[0], zeros), Zeros(zeros) + Escape(x, zeros);
            var tail := Escape(x[1..], n);
            && n <= 2
            && (b == 0 && zeros < 2 ==> s == Zeros(n) + tail)
            && (b == 0 && zeros == 2 ==> s == Zeros(2) + ([3] + (Zeros(n) + tail)))
            && (b != 0 && Guarded(b, zeros) ==> s == Zeros(2) + ([3] + ([b] + tail)))
            && (b != 0 && !Guarded(b, zeros) ==> s == Zeros(zeros) + ([b] + tail))
  {
    var b, tail := x[0], Escape(x[1..], ZerosAfter(x[0], zeros));
    if b == 0 {
      assert Zeros(1) == [0];
      if zeros < 2 {
        OneMoreZero(tail, zeros);
      }
    }
  }

  lemma PutTogether(a: Bytes, b: Bytes, c: Bytes)
    ensures (a + b) + c == a + (b + c)
  {
  }

  lemma OneMoreZero(rest: Bytes, zeros: nat)
    requires zeros < 2
    ensures Zeros(zeros) + ([0] + rest) == Zeros(zeros + 1) + rest
  {
    assert Zeros(0) == [] && Zeros(1) == [0] && Zeros(2) == [0, 0];
  }

  lemma UnescapeTurn(e: Bytes)
    requires e != []
    ensures Unescape(e) == if MarkerAt(e, 0) then [0, 0] + Unescape(e[3..]) else [e[0]] + Unescape(e[1..])
  {
  }

  lemma UnescapeCons(b: byte, s: Bytes)
    requires b != 0 || |s| < 2 || s[0] != 0 || s[1] != 3
    ensures Unescape([b] + s) == [b] + Unescape(s)
  {
    assert ([b] + s)[1..] == s;
  }

  lemma UnescapePlain(b: byte, rest: Bytes, zeros: nat)
    requires zeros <= 2 && b != 0 && (zeros == 2 ==> b != 3)
    ensures Unescape(Zeros(zeros) + ([b] + rest)) == Zeros(zeros) + ([b] + Unescape(rest))
  {
    var t := Unescape(rest);
    UnescapeCons(b, rest);
    if zeros == 0 {
      assert Zeros(0) + ([b] + rest) == [b] + rest && Zeros(0) + ([b] + t) == [b] + t;
    } else {
      UnescapePlain(b, rest, zeros - 1);
      UnescapeCons(0, Zeros(zeros - 1) + ([b] + rest));
      PutTogether([0], Zeros(zeros - 1), [b] + rest);
      PutTogether([0], Zeros(zeros - 1), [b] + t);
    }
  }

  lemma UnescapeGuard(rest: Bytes)
    ensures Unescape(Zeros(2) + ([3] + rest)) == Zeros(2) + Unescape(rest)
  {
    var s := Zeros(2) + ([3] + rest);
    assert s[0] == 0 && s[1] == 0 && s[2] == 3 && s[3..] == rest;
    assert Zeros(2) == [0, 0];
  }

  /** Unescaping undoes escaping, also from the middle of a run of zeros. */
  lemma {:induction false} UnescapeUndoesEscape(x: Bytes, zeros: nat)
    requires zeros <= 2
    ensures Unescape(Zeros(zeros) + Escape(x, zeros)) == Zeros(zeros) + x
  {
    if x == [] {
      assert Zeros(0) == [] && Zeros(1) == [0] && Zeros(2) == [0, 0];
      assert Zeros(zeros) + [] == Zeros(zeros);
      assert [0][1..] == [] && [0, 0][1..] == [0];
    } else {
      EscapeStep(x, zeros);
      UnescapeUndoesEscape(x[1..], ZerosAfter(x[0], zeros));
      UnescapeByte(x, zeros);
    }
  }

  lemma UnescapeByte(x: Bytes, zeros: nat)
    requires x != [] && zeros <= 2
    requires var n := ZerosAfter(x[0], zeros);
             n <= 2 && Unescape(Zeros(n) + Escape(x[1..], n)) == Zeros(n) + x[1..]
    ensures Unescape(Zeros(zeros) + Escape(x, zeros)) == Zeros(zeros) + x
  {
    var b, n := x[0], ZerosAfter(x[0], zeros);
    var tail := Escape(x[1..], n);
    EscapeStep(x, zeros);
    assert x == [b] + x[1..];
    if b == 0 {
      ZeroJoins(x[1..], zeros);
      if zeros == 2 {
        UnescapeGuard(Zeros(n) + tail);
      }
    } else {
      assert Zeros(0) + tail == tail && Zeros(0) + x[1..] == x[1..];
      if Guarded(b, zeros) {
        UnescapeGuard([b] + tail);
        UnescapeCons(b, tail);
      } else {
        UnescapePlain(b, tail, zeros);
      }
    }
  }

  lemma ZeroJoins(rest: Bytes, zeros: nat)
    requires zeros <= 2
    ensures Zeros(zeros) + ([0] + rest) == if zeros == 2 then Zeros(2) + (Zeros(1) + rest) else Zeros(zeros + 1) + rest
  {
    if zeros < 2 {
      OneMoreZero(rest, zeros);
    } else {
      assert Zeros(1) == [0];
    }
  }

  /** No reserved pattern, and every 00 00 03 is followed by the byte it guards. */
  ghost predicate Safe(s: Bytes) {
    forall i :: 0 <= i < |s| - 2 && s[i] == 0 && s[i + 1] == 0 ==> Guard(s, i)
  }

  ghost predicate Guard(s: Bytes, i: nat)
    requires i < |s| - 2
  {
    s[i + 2] >= 3 && (s[i + 2] == 3 ==> i + 3 < |s| && s[i + 3] <= 3)
  }

  lemma SafeAfter(b: byte, s: Bytes)
    requires Safe(s) && b != 0
    ensures Safe([b] + s)
  {
    assert forall i :: 1 <= i < |s| - 1 ==> ([b] + s)[i] == s[i - 1];
    forall i | 0 <= i < |[b] + s| - 2 && ([b] + s)[i] == 0 && ([b] + s)[i + 1] == 0 ensures Guard([b] + s, i) {
      assert Guard(s, i - 1);
    }
  }

  lemma SafeZeros(b: byte, s: Bytes, zeros: nat)
    requires Safe([b] + s) && zeros <= 2 && b != 0 && (zeros == 2 ==> b > 3 || (b == 3 && s != [] && s[0] <= 3))
    ensures Safe(Zeros(zeros) + ([b] + s))
  {
    assert Zeros(0) == [] && Zeros(1) == [0] && Zeros(2) == [0, 0];
    var t := Zeros(zeros) + ([b] + s);
    assert |Zeros(zeros)| == zeros && t[zeros] == b && t[zeros..] == [b] + s;
    hide Zeros, Guard;
    forall i | 0 <= i < |t| - 2 && t[i] == 0 && t[i + 1] == 0 ensures Guard(t, i) {
      if i >= zeros {
        assert Guard([b] + s, i - zeros);
      }
    }
  }

  /** Escaped bytes hold none of 00 00 00, 00 00 01 and 00 00 02. */
  lemma {:induction false} EscapedIsSafe(x: Bytes, zeros: nat)
    requires zeros <= 2
    ensures Safe(Zeros(zeros) + Escape(x, zeros))
  {
    if x == [] {
      assert Zeros(0) == [] && Zeros(1) == [0] && Zeros(2) == [0, 0];
    } else {
      EscapeStep(x, zeros);
      var b, n := x[0], ZerosAfter(x[0], zeros);
      EscapedIsSafe(x[1..], n);
      SafeByte(x, zeros);
    }
  }

  lemma SafeByte(x: Bytes, zeros: nat)
    requires x != [] && zeros <= 2
    requires var n := ZerosAfter(x[0], zeros); n <= 2 && Safe(Zeros(n) + Escape(x[1..], n))
    ensures Safe(Zeros(zeros) + Escape(x, zeros))
  {
    var b, n := x[0], ZerosAfter(x[0], zeros);
    var tail := Escape(x[1..], n);
    EscapeStep(x, zeros);
    if b == 0 {
      if zeros == 2 {
        assert (Zeros(n) + tail)[0] == 0;
        SafeGuard(Zeros(n) + tail);
      }
    } else {
      assert Zeros(0) + tail == tail;
      SafeAfter(b, tail);
      if Guarded(b, zeros) {
        SafeGuard([b] + tail);
      } else {
        SafeZeros(b, tail, zeros);
      }
    }
  }

  lemma SafeGuard(rest: Bytes)
    requires Safe(rest) && rest != [] && rest[0] <= 3
    ensures Safe(Zeros(2) + ([3] + rest))
  {
    SafeAfter(3, rest);
    SafeZeros(3, rest, 2);
  }

  /** A decoder never takes escaped bytes for a start code. */
  lemma EscapedHoldsNoReservedPattern(x: Bytes, i: nat)
    requires i + 2 < |Escape(x, 0)|
    ensures var s := Escape(x, 0); !(s[i] == 0 && s[i + 1] == 0 && s[i + 2] <= 2)
  {
    EscapedIsSafe(x, 0);
    var s := Escape(x, 0);
    assert Zeros(0) + s == s;
    assert s[i] == 0 && s[i + 1] == 0 ==> Guard(s, i);
  }

  /** The last byte is what it was, so it can be read before unescaping. */
  lemma {:induction false} EscapeKeepsLast(x: Bytes, zeros: nat)
    requires x != []
    ensures Escape(x, zeros) != [] && Escape(x, zeros)[|Escape(x, zeros)| - 1] == x[|x| - 1]
    ensures |Escape(x, zeros)| >= |x|
  {
    if |x| > 1 {
      EscapeKeepsLast(x[1..], ZerosAfter(x[0], zeros));
    }
  }

  lemma {:induction false} UnescapeShrinks(s: Bytes)
    ensures |Unescape(s)| <= |s| && (HasMarker(s) ==> |Unescape(s)| < |s|)
  {
    if s == [] {
    } else if MarkerAt(s, 0) {
      UnescapeShrinks(s[3..]);
    } else {
      UnescapeShrinks(s[1..]);
      if HasMarker(s) {
        var i :| 0 <= i < |s| - 3 && MarkerAt(s, i);
        assert MarkerAt(s[1..], i - 1);
      }
    }
  }

  lemma {:induction false} UnescapeWithoutMarker(s: Bytes)
    requires !exists i :: MarkerAt(s, i)
    ensures Unescape(s) == s
  {
    if s != [] {
      assert !MarkerAt(s, 0);
      assert forall i :: MarkerAt(s[1..], i) ==> MarkerAt(s, i + 1);
      UnescapeWithoutMarker(s[1..]);
    }
  }

  lemma SafeMarkers(s: Bytes)
    requires Safe(s)
    ensures forall i :: MarkerAt(s, i) ==> i < |s| - 3
  {
    forall i | MarkerAt(s, i) ensures i < |s| - 3 {
      assert Guard(s, i);
    }
  }

  /** On escaped data the test is exact, although it does not look at the last three bytes. */
  lemma MarkerTestIsExact(x: Bytes)
    ensures HasMarker(Escape(x, 0)) <==> Escape(x, 0) != x
  {
    var s := Escape(x, 0);
    UnescapeUndoesEscape(x, 0);
    EscapedIsSafe(x, 0);
    assert Zeros(0) + s == s && Zeros(0) + x == x;
    UnescapeShrinks(s);
    if !HasMarker(s) {
      SafeMarkers(s);
      UnescapeWithoutMarker(s);
    }
  }

  // ---------------------------------------------------------------- frames

  type Key = Bytes

  /** An authenticated cipher: arguments are key, IV, associated data, and text. */
  datatype Aead = Aead(seal: (Key, Bytes, Bytes, Bytes) -> Bytes, open: (Key, Bytes, Bytes, Bytes) -> Option<Bytes>) {
    /** A text opens exactly when it is the seal of what it opens to. */
    ghost predicate Ideal() {
      && (forall k, iv, aad, p, c :: open(k, iv, aad, c) == Some(p) <==> c == seal(k, iv, aad, p))
      && (forall k, iv, aad, p :: |seal(k, iv, aad, p)| == |p| + TAG_LENGTH)
    }
  }

  /** The sealed payload with what is needed to open it. */
  function Sealed(aead: Aead, key: Key, keyIndex: byte, iv: Bytes, header: Bytes, plain: Bytes): Bytes
    requires |iv| == IV_LENGTH
  {
    aead.seal(key, iv, header, plain) + iv + [IV_LENGTH, keyIndex]
  }

  function Frame(header: Bytes, payload: Bytes, nalu: bool): Bytes {
    header + if nalu then Escape(payload, 0) else payload
  }

  /** What comes of a frame to be sent: it goes on to the network, or the call is rejected and the stream fails. */
  datatype Encoded = Enqueued(frame: Bytes) | Rejected

  /**
    `clear` bytes stay unencrypted.  An empty frame passes.  A frame shorter than its clear bytes is not dropped:
    reading them fails before anything is caught, and the whole call is rejected.
  */
  method EncodeFrame(aead: Aead, key: Key, keyIndex: byte, iv: Bytes, data: Bytes, clear: nat, nalu: bool)
    returns (result: Encoded)
    requires |iv| == IV_LENGTH
    ensures data == [] ==> result == Enqueued([])
    ensures data != [] && clear > |data| ==> result == Rejected
    ensures data != [] && clear <= |data| ==>
              result == Enqueued(Frame(data[..clear], Sealed(aead, key, keyIndex, iv, data[..clear], data[clear..]), nalu))
  {
    if data == [] {
      return Enqueued(data);
    }
    if clear > |data| {
      return Rejected;
    }
    var c := data[..clear];
    var a := aead.seal(key, iv, c, data[clear..]);
    a := a + iv + [IV_LENGTH, keyIndex];
    if nalu {
      a := EscapeBytes(a);
    }
    result := Enqueued(c + a);
  }

  /** The bytes of a frame after the first step of decryption, which rewrites the frame in place. */
  function Rewritten(data: Bytes, clear: nat, nalu: bool): Bytes
    requires clear <= |data|
  {
    data[..clear] + if nalu && HasMarker(data[clear..]) then Unescape(data[clear..]) else data[clear..]
  }

  /** Reads the trailer and opens the payload; lengths that do not add up fail. */
  function Opened(aead: Aead, key: Key, data: Bytes, clear: nat): Option<Bytes>
    requires clear <= |data|
  {
    if |data| < 2 then None
    else
      var r := data[|data| - 2];
      var end := |data| - 2 - r;
      if end < clear then None
      else match aead.open(key, data[end..end + r], data[..clear], data[clear..end])
        case None => None
        case Some(plain) => Some(data[..clear] + plain)
  }

  /** One attempt with one key; `after` is what the frame holds for the next attempt. */
  method DecryptFrame(aead: Aead, key: Key, frame: Bytes, clear: nat, nalu: bool)
    returns (plain: Option<Bytes>, after: Bytes)
    ensures clear > |frame| ==> plain == None && after == frame
    ensures clear <= |frame| ==> after == Rewritten(frame, clear, nalu) && plain == Opened(aead, key, after, clear)
  {
    after := frame;
    if clear > |frame| {
      return None, after;
    }
    var c := frame[clear..];
    var escaped := FindMarker(c);
    if nalu && escaped {
      c := UnescapeBytes(c);
      after := frame[..clear] + c;
    } else {
      assert frame == frame[..clear] + frame[clear..];
    }
    assert after == Rewritten(frame, clear, nalu);
    hide *;
    plain := ReadFrame(aead, key, after, clear);
  }

  /** Reads the trailer from the end of the frame, and opens what it says is sealed. */
  method ReadFrame(aead: Aead, key: Key, data: Bytes, clear: nat) returns (plain: Option<Bytes>)
    requires clear <= |data|
    ensures plain == Opened(aead, key, data, clear)
  {
    if |data| < 2 {
      return None;
    }
    var r := data[|data| - 2];
    var l := |data| - (clear + r + 2);
    if l < 0 {
      return None;
    }
    var d := data[|data| - r - 2..][..r];
    assert d == data[clear + l..clear + l + r];
    var h := aead.open(key, d, data[..clear], data[clear..clear + l]);
    plain := match h case None => None case Some(p) => Some(data[..clear] + p);
  }

  lemma RewriteRestores(header: Bytes, payload: Bytes, nalu: bool)
    ensures Rewritten(Frame(header, payload, nalu), |header|, nalu) == header + payload
  {
    var frame := Frame(header, payload, nalu);
    assert frame[..|header|] == header;
    if nalu {
      assert frame[|header|..] == Escape(payload, 0);
      MarkerTestIsExact(payload);
      UnescapeUndoesEscape(payload, 0);
      assert Zeros(0) + Escape(payload, 0) == Escape(payload, 0) && Zeros(0) + payload == payload;
    } else {
      assert frame[|header|..] == payload;
    }
  }

  lemma OpensSealed(aead: Aead, key: Key, keyIndex: byte, iv: Bytes, header: Bytes, plain: Bytes)
    requires aead.Ideal() && |iv| == IV_LENGTH
    ensures Opened(aead, key, header + Sealed(aead, key, keyIndex, iv, header, plain), |header|) == Some(header + plain)
  {
    var c := aead.seal(key, iv, header, plain);
    var data := header + Sealed(aead, key, keyIndex, iv, header, plain);
    var end := |header| + |c|;
    assert |data| == end + IV_LENGTH + 2 && data[|data| - 2] == IV_LENGTH;
    assert aead.open(key, iv, header, c) == Some(plain);
    assert data[end..end + IV_LENGTH] == iv && data[..|header|] == header && data[|header|..end] == c;
  }

  /**
    The receiver gets back the frame that was sent, with the key index readable before anything
    is unescaped: for every payload, with or without emulation prevention.
  */
  lemma FrameRoundTrip(aead: Aead, key: Key, keyIndex: byte, iv: Bytes, data: Bytes, clear: nat, nalu: bool)
    requires aead.Ideal() && |iv| == IV_LENGTH && clear <= |data|
    ensures var frame := Frame(data[..clear], Sealed(aead, key, keyIndex, iv, data[..clear], data[clear..]), nalu);
            && clear < |frame| && frame[|frame| - 1] == keyIndex
            && Opened(aead, key, Rewritten(frame, clear, nalu), clear) == Some(data)
  {
    var header, plain := data[..clear], data[clear..];
    var payload := Sealed(aead, key, keyIndex, iv, header, plain);
    RewriteRestores(header, payload, nalu);
    OpensSealed(aead, key, keyIndex, iv, header, plain);
    FrameEnds(header, payload, nalu);
    assert header + plain == data && payload[|payload| - 1] == keyIndex;
    hide *;
  }

  lemma FrameEnds(header: Bytes, payload: Bytes, nalu: bool)
    requires payload != []
    ensures var frame := Frame(header, payload, nalu);
            |header| < |frame| && frame[|frame| - 1] == payload[|payload| - 1]
  {
    EscapeKeepsLast(payload, 0);
    hide Escape;
  }

  // ---------------------------------------------------------------- a second attempt

  lemma {:induction false} UnescapeKeepsTrailer(y: Bytes, a: byte, b: byte)
    requires a > 3
    ensures Unescape(y + [a, b]) == Unescape(y) + [a, b]
  {
    if y == [] {
      assert [] + [a, b] == [a, b] && [a, b][1..] == [b] && [b][1..] == [];
    } else {
      UnescapeTurn(y);
      UnescapeTurn(y + [a, b]);
      var used := if MarkerAt(y, 0) then 3 else 1;
      assert (y + [a, b])[used..] == y[used..] + [a, b] && MarkerAt(y, 0) == MarkerAt(y + [a, b], 0);
      UnescapeKeepsTrailer(y[used..], a, b);
      hide Unescape, MarkerAt;
      PutTogether(if used == 3 then [0, 0] else [y[0]], Unescape(y[used..]), [a, b]);
    }
  }

  /**
    What decryption returns from attempt `k` on: `keys(k)` is the key of that attempt, `window` how often the
    key may be ratcheted.  An attempt works on the frame as the one before has left it.
  */
  function Ratcheted(aead: Aead, keys: nat -> Key, frame: Bytes, clear: nat, nalu: bool, window: nat, k: nat): Option<Bytes>
    requires clear <= |frame|
    decreases window - k
  {
    var after := Rewritten(frame, clear, nalu);
    if Opened(aead, keys(k), after, clear).Some? || k >= window then Opened(aead, keys(k), after, clear)
    else Ratcheted(aead, keys, after, clear, nalu, window, k + 1)
  }

  method DecryptRatcheting(aead: Aead, keys: nat -> Key, frame: Bytes, clear: nat, nalu: bool, window: nat, k: nat)
    returns (plain: Option<Bytes>)
    ensures clear > |frame| ==> plain == None
    ensures clear <= |frame| ==> plain == Ratcheted(aead, keys, frame, clear, nalu, window, k)
    decreases window - k
  {
    var after;
    plain, after := DecryptFrame(aead, keys(k), frame, clear, nalu);
    if plain.None? && window > 0 && k < window {
      plain := DecryptRatcheting(aead, keys, after, clear, nalu, window, k + 1);
    }
  }

  /** A frame with its trailer that is too short to hold `length` bytes of text behind its header. */
  ghost predicate Stunted(frame: Bytes, header: Bytes, keyIndex: byte, length: nat) {
    exists y: Bytes :: frame == header + (y + [IV_LENGTH, keyIndex]) && |y| < length + TAG_LENGTH + IV_LENGTH
  }

  lemma StuntedStays(frame: Bytes, header: Bytes, keyIndex: byte, length: nat, nalu: bool)
    requires Stunted(frame, header, keyIndex, length)
    ensures |header| <= |frame| && Stunted(Rewritten(frame, |header|, nalu), header, keyIndex, length)
  {
    var y :| frame == header + (y + [IV_LENGTH, keyIndex]) && |y| < length + TAG_LENGTH + IV_LENGTH;
    assert frame[..|header|] == header && frame[|header|..] == y + [IV_LENGTH, keyIndex];
    UnescapeKeepsTrailer(y, IV_LENGTH, keyIndex);
    UnescapeShrinks(y);
  }

  lemma StuntedOpensShort(aead: Aead, key: Key, frame: Bytes, header: Bytes, keyIndex: byte, plain: Bytes)
    requires aead.Ideal() && Stunted(frame, header, keyIndex, |plain|)
    ensures |header| <= |frame| && Opened(aead, key, frame, |header|) != Some(header + plain)
  {
    var y :| frame == header + (y + [IV_LENGTH, keyIndex]) && |y| < |plain| + TAG_LENGTH + IV_LENGTH;
    assert frame[|frame| - 2] == IV_LENGTH && frame[..|header|] == header;
    var end := |frame| - 2 - IV_LENGTH;
    if end >= |header| {
      OpensToItsLength(aead, key, frame[end..end + IV_LENGTH], header, frame[|header|..end]);
    }
    hide *;
  }

  lemma OpensToItsLength(aead: Aead, key: Key, iv: Bytes, header: Bytes, sealed: Bytes)
    requires aead.Ideal()
    ensures var found := aead.open(key, iv, header, sealed);
            found.Some? ==> |sealed| == |found.value| + TAG_LENGTH
  {
    var found := aead.open(key, iv, header, sealed);
    if found.Some? {
      assert sealed == aead.seal(key, iv, header, found.value);
    }
  }

  lemma {:induction false} StuntedNeverOpens(aead: Aead, keys: nat -> Key, frame: Bytes, header: Bytes, keyIndex: byte,
                                             plain: Bytes, nalu: bool, window: nat, k: nat)
    requires aead.Ideal() && Stunted(frame, header, keyIndex, |plain|)
    ensures |header| <= |frame| && Ratcheted(aead, keys, frame, |header|, nalu, window, k) != Some(header + plain)
    decreases window - k
  {
    StuntedStays(frame, header, keyIndex, |plain|, nalu);
    var after := Rewritten(frame, |header|, nalu);
    StuntedOpensShort(aead, keys(k), after, header, keyIndex, plain);
    if k < window {
      StuntedNeverOpens(aead, keys, after, header, keyIndex, plain, nalu, window, k + 1);
    }
  }

  /** Once unescaped, a payload without a marker is read by each attempt as it is. */
  lemma {:induction false} PlainStays(aead: Aead, keys: nat -> Key, header: Bytes, payload: Bytes, nalu: bool,
                                      window: nat, k: nat, n: nat)
    requires k <= n <= window && !(nalu && HasMarker(payload)) && Opened(aead, keys(n), header + payload, |header|).Some?
    requires forall j: nat :: k <= j < n ==> Opened(aead, keys(j), header + payload, |header|) == None
    ensures Ratcheted(aead, keys, header + payload, |header|, nalu, window, k)
         == Opened(aead, keys(n), header + payload, |header|)
    decreases n - k
  {
    assert (header + payload)[..|header|] == header && (header + payload)[|header|..] == payload;
    if k < n {
      PlainStays(aead, keys, header, payload, nalu, window, k + 1, n);
    }
  }

  /** The keys before the `n`th do not open the payload. */
  ghost predicate StaleBefore(aead: Aead, keys: nat -> Key, header: Bytes, payload: Bytes, n: nat) {
    forall j: nat :: j < n ==> Opened(aead, keys(j), header + payload, |header|) == None
  }

  /**
    The first attempt leaves the payload unescaped in the frame, and every further one tests and unescapes it
    once more.  So, when the `n`th key is the sender's and the window reaches it, the frame is recovered exactly
    if that key is the first, as it must be under a window of zero, or the payload holds no 00 00 03 of its own.
  */
  lemma RatchetRecovers(aead: Aead, keys: nat -> Key, keyIndex: byte, iv: Bytes, data: Bytes, clear: nat, nalu: bool,
                        window: nat, n: nat)
    requires aead.Ideal() && |iv| == IV_LENGTH && clear <= |data| && n <= window
    requires StaleBefore(aead, keys, data[..clear], Sealed(aead, keys(n), keyIndex, iv, data[..clear], data[clear..]), n)
    ensures var payload := Sealed(aead, keys(n), keyIndex, iv, data[..clear], data[clear..]);
            var frame := Frame(data[..clear], payload, nalu);
            clear <= |frame| &&
            (Ratcheted(aead, keys, frame, clear, nalu, window, 0) == Some(data) <==>
             n == 0 || !(nalu && HasMarker(payload)))
  {
    var header, plain := data[..clear], data[clear..];
    var payload := Sealed(aead, keys(n), keyIndex, iv, header, plain);
    assert header + plain == data;
    RewriteRestores(header, payload, nalu);
    OpensSealed(aead, keys(n), keyIndex, iv, header, plain);
    hide Rewritten, Frame, Sealed, Opened, HasMarker;
    if n > 0 {
      if nalu && HasMarker(payload) {
        MarkedIsLost(aead, keys, keys(n), keyIndex, iv, header, plain, window);
      } else {
        PlainStays(aead, keys, header, payload, nalu, window, 1, n);
      }
    }
  }

  lemma MarkedIsLost(aead: Aead, keys: nat -> Key, key: Key, keyIndex: byte, iv: Bytes, header: Bytes, plain: Bytes,
                     window: nat)
    requires aead.Ideal() && |iv| == IV_LENGTH && HasMarker(Sealed(aead, key, keyIndex, iv, header, plain))
    ensures Ratcheted(aead, keys, header + Sealed(aead, key, keyIndex, iv, header, plain), |header|, true, window, 1)
         != Some(header + plain)
  {
    var payload := Sealed(aead, key, keyIndex, iv, header, plain);
    var after := Rewritten(header + payload, |header|, true);
    UnescapeStunts(aead, key, keyIndex, iv, header, plain);
    hide Rewritten, Opened, Sealed, HasMarker;
    StuntedOpensShort(aead, keys(1), after, header, keyIndex, plain);
    if 1 < window {
      StuntedNeverOpens(aead, keys, after, header, keyIndex, plain, true, window, 2);
    }
  }

  lemma UnescapeStunts(aead: Aead, key: Key, keyIndex: byte, iv: Bytes, header: Bytes, plain: Bytes)
    requires aead.Ideal() && |iv| == IV_LENGTH && HasMarker(Sealed(aead, key, keyIndex, iv, header, plain))
    ensures Stunted(Rewritten(header + Sealed(aead, key, keyIndex, iv, header, plain), |header|, true),
                    header, keyIndex, |plain|)
  {
    var c, payload := aead.seal(key, iv, header, plain), Sealed(aead, key, keyIndex, iv, header, plain);
    assert (header + payload)[..|header|] == header && (header + payload)[|header|..] == payload;
    assert payload == (c + iv) + [IV_LENGTH, keyIndex];
    UnescapeKeepsTrailer(c + iv, IV_LENGTH, keyIndex);
    UnescapeShrinks(payload);
  }

  // ---------------------------------------------------------------- a payload with a marker

  /** A toy cipher: the text stays as it is, under a tag that tells two kinds of keys apart. */
  function Tag(key: Key): Bytes {
    seq(TAG_LENGTH, _ => if key == [] then 255 else 254)
  }

  function ToyOpen(key: Key, c: Bytes): Option<Bytes> {
    if |c| >= TAG_LENGTH && c[|c| - TAG_LENGTH..] == Tag(key) then Some(c[..|c| - TAG_LENGTH]) else None
  }

  const TOY: Aead := Aead((key, iv, aad, p) => p + Tag(key), (key, iv, aad, c) => ToyOpen(key, c))

  lemma ToyIsIdeal()
    ensures TOY.Ideal()
  {
    forall key: Key, p: Bytes, c: Bytes ensures ToyOpen(key, c) == Some(p) <==> c == p + Tag(key) {
      if c == p + Tag(key) {
        assert c[|c| - TAG_LENGTH..] == Tag(key) && c[..|c| - TAG_LENGTH] == p;
      }
    }
  }

  /** A ratchet can lose a frame: the first key is stale, the second is right, and the IV holds 00 00 03. */
  lemma RatchetCanLose(keyIndex: byte)
    ensures exists aead: Aead, keys: nat -> Key, iv: Bytes, data: Bytes ::
              && aead.Ideal() && |iv| == IV_LENGTH
              && var payload := Sealed(aead, keys(1), keyIndex, iv, [], data);
                 StaleBefore(aead, keys, [], payload, 1) &&
                 Ratcheted(aead, keys, Frame([], payload, true), 0, true, 1, 0) != Some(data)
  {
    var keys: nat -> Key := k => if k == 0 then [0] else [];
    var iv: Bytes := [0, 0, 3, 0, 0, 0, 0, 0, 0, 0, 0, 0];
    var data: Bytes := [];
    assert iv[..3] == [0, 0, 3];
    assert |iv| == IV_LENGTH && keys(0) == [0] && keys(1) == [];
    hide *;
    ToyLoses(keys, keyIndex, iv, data);
  }

  lemma ToyLoses(keys: nat -> Key, keyIndex: byte, iv: Bytes, data: Bytes)
    requires keys(0) == [0] && keys(1) == [] && |iv| == IV_LENGTH && iv[..3] == [0, 0, 3] && data == []
    ensures var payload := Sealed(TOY, keys(1), keyIndex, iv, [], data);
            TOY.Ideal() && StaleBefore(TOY, keys, [], payload, 1) &&
            Ratcheted(TOY, keys, Frame([], payload, true), 0, true, 1, 0) != Some(data)
  {
    hide Tag, ToyOpen;
    ToyIsIdeal();
    ToyPayload(keyIndex, iv);
    assert data[..0] == [] && data[0..] == data;
    hide Sealed, Opened, HasMarker, Ratcheted, Frame, Aead.Ideal;
    RatchetRecovers(TOY, keys, keyIndex, iv, data, 0, true, 1, 1);
  }

  lemma ToyPayload(keyIndex: byte, iv: Bytes)
    requires |iv| == IV_LENGTH && iv[..3] == [0, 0, 3]
    ensures var payload := Sealed(TOY, [], keyIndex, iv, [], []);
            HasMarker(payload) && Opened(TOY, [0], [] + payload, 0) == None
  {
    var payload := Sealed(TOY, [], keyIndex, iv, [], []);
    assert payload == Tag([]) + iv + [IV_LENGTH, keyIndex] && iv[..3][2] == iv[2];
    assert MarkerAt(payload, TAG_LENGTH);
    assert [] + payload == payload && payload[0..TAG_LENGTH] == Tag([]) && Tag([0])[0] != Tag([])[0];
  }

  // ---------------------------------------------------------------- the clear header

  /** A frame whose clear bytes were altered on the way does not open, if the cipher refuses them as associated data. */
  lemma HeaderIsAuthenticated(aead: Aead, key: Key, keyIndex: byte, iv: Bytes, data: Bytes, altered: Bytes, nalu: bool)
    requires |iv| == IV_LENGTH && |altered| <= |data|
    requires var clear := |altered|;
             aead.open(key, iv, altered, aead.seal(key, iv, data[..clear], data[clear..])) == None
    ensures var clear := |altered|;
            var payload := Sealed(aead, key, keyIndex, iv, data[..clear], data[clear..]);
            var frame := Frame(altered, payload, nalu);
            clear <= |frame| && Opened(aead, key, Rewritten(frame, clear, nalu), clear) == None
  {
    var clear := |altered|;
    var header, plain := data[..clear], data[clear..];
    var c := aead.seal(key, iv, header, plain);
    RewriteRestores(altered, Sealed(aead, key, keyIndex, iv, header, plain), nalu);
    var whole := altered + Sealed(aead, key, keyIndex, iv, header, plain);
    var end := clear + |c|;
    assert |whole| == end + IV_LENGTH + 2 && whole[|whole| - 2] == IV_LENGTH;
    assert whole[end..end + IV_LENGTH] == iv && whole[..clear] == altered && whole[clear..end] == c;
  }
}
