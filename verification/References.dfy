/** The echo canceller's reference: any device rate brought to 48 kHz by linear interpolation. */
module References {
  const TARGET_RATE: nat := 48_000
  const SAMPLES: nat := 480

  function Clamp(v: real, low: real, high: real): real {
    if v < low then low else if v > high then high else v
  }

  /** A sample as 16-bit PCM, truncated toward zero. */
  function Pcm(v: real): int {
    var scaled := Clamp(v, -1.0, 1.0) * 32767.0;
    if scaled >= 0.0 then scaled.Floor else -((-scaled).Floor)
  }

  /** Input sample number `i`, counted from 1; silence before the first. */
  function Input(inputs: seq<real>, i: nat): real {
    if 0 < i <= |inputs| then inputs[i - 1] else 0.0
  }

  /** The input, joined by straight lines, at `p` 48000ths of a sample after the start. */
  function At(inputs: seq<real>, p: nat): real {
    if p == 0 then 0.0
    else
      var i := (p - 1) / TARGET_RATE;
      var fraction := (p - TARGET_RATE * i) as real / 48_000.0;
      Input(inputs, i) + (Input(inputs, i + 1) - Input(inputs, i)) * fraction
  }

  /** How many samples are due after `n` inputs. */
  function Due(n: nat, rate: nat): nat {
    if rate == 0 then 0 else TARGET_RATE * n / rate
  }

  /** The time from the `made`th output to the `n`th input, in 48000ths times the rate. */
  function Remaining(n: nat, made: nat, rate: nat): int {
    TARGET_RATE * n - made * rate
  }

  lemma RemainingMoves(n: nat, made: nat, rate: nat)
    ensures Remaining(n + 1, made, rate) == Remaining(n, made, rate) + TARGET_RATE
    ensures Remaining(n, made + 1, rate) == Remaining(n, made, rate) - rate
    ensures rate == 0 ==> Remaining(n, made, rate) == TARGET_RATE * n
  {
    OneMore(made, rate);
  }

  /** The line from `previous` to `sample`, `phase` before its end. */
  function Blend(previous: real, sample: real, phase: nat): real {
    previous + (sample - previous) * Clamp(1.0 - phase as real / 48_000.0, 0.0, 1.0)
  }

  /** Output sample number `k`, counted from 0. */
  function Sample(inputs: seq<real>, rate: nat, k: nat): int {
    Pcm(At(inputs, (k + 1) * rate))
  }

  /** The first `m` output samples: the input at every multiple of `rate` 48000ths. */
  function Output(inputs: seq<real>, rate: nat, m: nat): seq<int> {
    seq(m, k requires 0 <= k < m => Sample(inputs, rate, k))
  }

  function Flatten(frames: seq<seq<int>>): seq<int> {
    if frames == [] then [] else Flatten(frames[..|frames| - 1]) + frames[|frames| - 1]
  }

  lemma Associates(a: seq<int>, b: seq<int>, c: seq<int>)
    ensures a + (b + c) == (a + b) + c
  {
  }

  class Reference {
    const rate: nat
    var phase: nat
    var previous: real
    const samples: array<int>
    var used: nat
    /** The frames handed to the channel, which may drop them when it is full. */
    var offered: seq<seq<int>>
    ghost var inputs: seq<real>

    ghost function Produced(): seq<int>
      reads this, samples
      requires used <= samples.Length
    {
      Flatten(offered) + samples[..used]
    }

    ghost predicate Buffered()
      reads this, samples
    {
      samples.Length == SAMPLES && used < SAMPLES && forall i :: 0 <= i < |offered| ==> |offered[i]| == SAMPLES
    }

    ghost predicate Valid()
      reads this, samples
    {
      && Buffered()
      && previous == Input(inputs, |inputs|)
      && Produced() == Output(inputs, rate, Due(|inputs|, rate))
      && phase == Remaining(|inputs|, Due(|inputs|, rate), rate)
      && (rate > 0 ==> phase < rate)
    }

    constructor (rate: nat)
      ensures Valid() && fresh(samples) && inputs == [] && this.rate == rate
    {
      this.rate, phase, previous, used, offered, inputs := rate, 0, 0.0, 0, [], [];
      samples := new int[SAMPLES];
    }

    /** Puts one sample into the frame, and hands the frame on when it is full. */
    method Emit(v: int)
      requires Buffered()
      modifies this`used, this`offered, samples
      ensures Buffered() && Produced() == old(Produced()) + [v]
    {
      hide Flatten;
      Associates(Flatten(offered), samples[..used], [v]);
      samples[used] := v;
      used := used + 1;
      assert samples[..used] == old(samples[..used]) + [v];
      if used == SAMPLES {
        assert samples[..] == samples[..used];
        FlattenOneMore(offered, samples[..]);
        offered := offered + [samples[..]];
        used := 0;
      }
    }

    method Push(sample: real)
      requires Valid()
      modifies this, samples
      ensures Valid() && inputs == old(inputs) + [sample]
    {
      var n := |inputs| + 1;
      ghost var made: nat := Due(|inputs|, rate);
      OutputKept(inputs, sample, rate, made);
      RemainingMoves(|inputs|, made, rate);
      LastInput(inputs, sample);
      hide Remaining, Due, Output, Input, Flatten, Pcm, Blend;
      inputs := inputs + [sample];
      phase := phase + TARGET_RATE;
      while phase >= rate && rate > 0
        invariant Buffered() && inputs == old(inputs) + [sample]
        invariant previous == old(previous)
        invariant Produced() == Output(inputs, rate, made)
        invariant phase == Remaining(n, made, rate)
        invariant rate == 0 ==> made == 0
        invariant rate > 0 ==> phase < rate + TARGET_RATE
        decreases phase
      {
        phase := phase - rate;
        var value := Blend(previous, sample, phase);
        RemainingMoves(n, made, rate);
        NextSample(inputs, rate, made, phase, previous, value);
        Emit(Pcm(value));
        made := made + 1;
      }
      previous := sample;
      DueIs(n, rate, made, phase);
    }
  }

  lemma LastInput(inputs: seq<real>, sample: real)
    ensures Input(inputs + [sample], |inputs|) == Input(inputs, |inputs|)
    ensures Input(inputs + [sample], |inputs| + 1) == sample
  {
  }

  /** The value computed in one turn of the loop is the next output sample; its fraction is never clamped. */
  lemma NextSample(inputs: seq<real>, rate: nat, made: nat, phase: nat, previous: real, value: real)
    requires inputs != [] && phase < TARGET_RATE && phase + rate == Remaining(|inputs|, made, rate)
    requires previous == Input(inputs, |inputs| - 1) && value == Blend(previous, inputs[|inputs| - 1], phase)
    ensures Output(inputs, rate, made + 1) == Output(inputs, rate, made) + [Pcm(value)]
    ensures 0.0 < 1.0 - phase as real / 48_000.0 <= 1.0
    ensures phase == Remaining(|inputs|, made + 1, rate)
  {
    OneMore(made, rate);
    Interpolates(inputs, (made + 1) * rate, phase);
    assert At(inputs, (made + 1) * rate) == value;
    assert Sample(inputs, rate, made) == Pcm(value);
  }

  lemma FlattenOneMore(frames: seq<seq<int>>, frame: seq<int>)
    ensures Flatten(frames + [frame]) == Flatten(frames) + frame
  {
    assert (frames + [frame])[..|frames|] == frames;
  }

  lemma OneMore(made: nat, rate: nat)
    ensures (made + 1) * rate == made * rate + rate
  {
  }

  /** `phase` before the newest input, the output falls on the line that ends there. */
  lemma Interpolates(inputs: seq<real>, p: nat, phase: nat)
    requires inputs != [] && p == TARGET_RATE * |inputs| - phase && phase < TARGET_RATE
    ensures var n := |inputs|;
            At(inputs, p) == Input(inputs, n - 1) +
              (Input(inputs, n) - Input(inputs, n - 1)) * (1.0 - phase as real / 48_000.0)
  {
    var n := |inputs|;
    assert (p - 1) / TARGET_RATE == n - 1;
    assert (p - TARGET_RATE * (n - 1)) as real / 48_000.0 == 1.0 - phase as real / 48_000.0;
  }

  lemma DueIs(n: nat, rate: nat, made: nat, phase: nat)
    requires phase == Remaining(n, made, rate) && (if rate == 0 then made == 0 else phase < rate)
    ensures Due(n, rate) == made && (rate > 0 ==> phase == (TARGET_RATE * n) % rate)
  {
    if rate > 0 {
      Quotient(TARGET_RATE * n, rate, made, phase);
    }
  }

  lemma Quotient(a: nat, b: nat, q: nat, r: nat)
    requires b > 0 && a == q * b + r && r < b
    ensures a / b == q && a % b == r
  {
    var d := a / b - q;
    assert a == (a / b) * b + a % b;
    assert d * b == r - a % b;
    AwayFromZero(d, b);
  }

  lemma AwayFromZero(d: int, b: int)
    requires b > 0
    ensures (d >= 1 ==> d * b >= b) && (d <= -1 ==> d * b <= -b)
  {
  }

  /** A later input does not change what was produced. */
  lemma OutputKept(inputs: seq<real>, sample: real, rate: nat, m: nat)
    requires m * rate <= TARGET_RATE * |inputs|
    ensures Output(inputs + [sample], rate, m) == Output(inputs, rate, m)
  {
    forall k | 0 <= k < m ensures Sample(inputs + [sample], rate, k) == Sample(inputs, rate, k) {
      Scale(k + 1, m, rate);
      AtKept(inputs, sample, (k + 1) * rate);
    }
  }

  lemma Scale(a: nat, b: nat, k: nat)
    requires a <= b
    ensures a * k <= b * k
  {
  }

  lemma AtKept(inputs: seq<real>, sample: real, p: nat)
    requires p <= TARGET_RATE * |inputs|
    ensures At(inputs + [sample], p) == At(inputs, p)
  {
    if p > 0 {
      assert (p - 1) / TARGET_RATE < |inputs|;
    }
  }

  /** What a valid reference amounts to, in the terms of its counters. */
  lemma CountsAreExact(r: Reference)
    requires r.Valid() && r.rate > 0
    ensures var n := |r.inputs|;
            && |r.Produced()| == 48_000 * n / r.rate
            && r.phase == (48_000 * n) % r.rate
            && r.used == (48_000 * n / r.rate) % 480
            && |r.offered| == (48_000 * n / r.rate) / 480
  {
    var n := |r.inputs|;
    Quotient(TARGET_RATE * n, r.rate, Due(n, r.rate), r.phase);
    FlattenLength(r.offered);
    Quotient(|r.Produced()|, SAMPLES, |r.offered|, r.used);
  }

  lemma {:induction false} FlattenLength(frames: seq<seq<int>>)
    requires forall i :: 0 <= i < |frames| ==> |frames[i]| == SAMPLES
    ensures |Flatten(frames)| == |frames| * SAMPLES
  {
    if frames != [] {
      FlattenLength(frames[..|frames| - 1]);
    }
  }

  // ---------------------------------------------------------------- what a sample is

  /** The input is joined by straight lines: `j` 48000ths of the way from one sample to the next. */
  lemma AtIsLinear(inputs: seq<real>, i: nat, j: nat)
    requires i < |inputs| && 0 < j <= 48_000
    ensures var from := if i == 0 then 0.0 else inputs[i - 1];
            At(inputs, 48_000 * i + j) == from + (inputs[i] - from) * (j as real / 48_000.0)
  {
    assert (48_000 * i + j - 1) / TARGET_RATE == i;
  }

  /** A sample in range becomes its 32767th part, truncated toward zero; one out of range becomes the extreme. */
  lemma PcmMeans(v: real)
    ensures -1.0 <= v <= 1.0 ==>
              if v >= 0.0 then Pcm(v) as real <= v * 32767.0 < (Pcm(v) + 1) as real
              else (Pcm(v) - 1) as real < v * 32767.0 <= Pcm(v) as real
    ensures v > 1.0 ==> Pcm(v) == 32767
    ensures v < -1.0 ==> Pcm(v) == -32767
  {
  }
}
