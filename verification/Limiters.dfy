/** The peak limiter after the manual volume, over the reals. */
module Limiters {
  const CEILING: real := 0.98

  function Abs(x: real): real {
    if x >= 0.0 then x else -x
  }

  /** The gain that brings a sample down to the ceiling, or 1. */
  function Target(s: real): real {
    CEILING / (if Abs(s) >= CEILING then Abs(s) else CEILING)
  }

  /** One sample of release towards unity. */
  function Released(gain: real, release: real): real {
    gain + (1.0 - gain) * release
  }

  function Min(a: real, b: real): real {
    if a <= b then a else b
  }

  function Scaled(s: real, gain: real): real {
    s * gain
  }

  function GainAfter(xs: seq<real>, release: real): real {
    if xs == [] then 1.0
    else Min(Released(GainAfter(xs[..|xs| - 1], release), release), Target(xs[|xs| - 1]))
  }

  /** What samples `ys` become when `xs` came before. */
  function Limited(xs: seq<real>, ys: seq<real>, release: real): seq<real> {
    if ys == [] then []
    else Limited(xs, ys[..|ys| - 1], release) + [Scaled(ys[|ys| - 1], GainAfter(xs + ys, release))]
  }

  lemma OneMoreSample(xs: seq<real>, ys: seq<real>, s: real, release: real)
    ensures GainAfter(xs + (ys + [s]), release) == Min(Released(GainAfter(xs + ys, release), release), Target(s))
    ensures Limited(xs, ys + [s], release) == Limited(xs, ys, release) + [Scaled(s, GainAfter(xs + (ys + [s]), release))]
    ensures (xs + ys) + [s] == xs + (ys + [s])
  {
    hide Released, Target, Min;
    var more := ys + [s];
    assert more[|more| - 1] == s && more[..|more| - 1] == ys;
    assert (xs + more)[|xs + more| - 1] == s && (xs + more)[..|xs + more| - 1] == xs + ys;
  }

  lemma NoSamples(xs: seq<real>, release: real)
    ensures Limited(xs, [], release) == [] && xs + [] == xs
  {
  }

  class Limiter {
    const release: real
    var gain: real
    ghost var inputs: seq<real>

    ghost predicate Valid()
      reads this
    {
      0.0 < release < 1.0 && gain == GainAfter(inputs, release)
    }

    constructor (release: real)
      requires 0.0 < release < 1.0
      ensures Valid() && inputs == [] && this.release == release
    {
      this.release, gain, inputs := release, 1.0, [];
    }

    method Process(hop: array<real>)
      requires Valid()
      modifies this, hop
      ensures Valid() && inputs == old(inputs) + old(hop[..])
      ensures hop[..] == Limited(old(inputs), old(hop[..]), release)
    {
      hide GainAfter, Limited;
      ghost var before, all := inputs, hop[..];
      NoSamples(before, release);
      for i := 0 to hop.Length
        invariant inputs == before + all[..i] && Valid()
        invariant hop[..i] == Limited(before, all[..i], release)
        invariant hop[i..] == all[i..]
      {
        var target := Target(hop[i]);
        assert all[..i + 1] == all[..i] + [all[i]] && hop[i] == hop[i..][0] == all[i];
        OneMoreSample(before, all[..i], all[i], release);
        gain := Min(Released(gain, release), target);
        inputs := inputs + [all[i]];
        assert gain == GainAfter(before + (all[..i] + [all[i]]), release);
        hop[i] := Scaled(hop[i], gain);
        assert hop[..i + 1] == hop[..i] + [hop[i]];
      }
      assert all[..hop.Length] == all && hop[..hop.Length] == hop[..];
    }
  }

  // ---------------------------------------------------------------- the closed form

  function Pow(x: real, n: nat): real {
    if n == 0 then 1.0 else x * Pow(x, n - 1)
  }

  /** How far sample `j` still holds the gain down after all of `xs`. */
  function Recovering(xs: seq<real>, release: real, j: nat): real
    requires j < |xs|
  {
    1.0 - (1.0 - Target(xs[j])) * Pow(1.0 - release, |xs| - 1 - j)
  }

  /** `g` is the least of 1 and what each past sample still allows. */
  ghost predicate IsLeast(g: real, xs: seq<real>, release: real) {
    && g <= 1.0
    && (forall j :: 0 <= j < |xs| ==> g <= Recovering(xs, release, j))
    && (g == 1.0 || exists j :: 0 <= j < |xs| && g == Recovering(xs, release, j))
  }

  lemma RecoveringStep(xs: seq<real>, s: real, release: real, j: nat)
    requires j < |xs|
    ensures Recovering(xs + [s], release, j) == Released(Recovering(xs, release, j), release)
  {
    var q, d, p := 1.0 - release, 1.0 - Target(xs[j]), Pow(1.0 - release, |xs| - 1 - j);
    assert Pow(q, |xs| - j) == q * p;
    Distribute(d, p, release);
  }

  lemma Distribute(d: real, p: real, release: real)
    ensures 1.0 - d * ((1.0 - release) * p) == Released(1.0 - d * p, release)
  {
    var e := d * p;
    assert d * ((1.0 - release) * p) == (1.0 - release) * e;
  }

  lemma ReleasedMonotone(a: real, b: real, release: real)
    requires a <= b && 0.0 < release < 1.0
    ensures Released(a, release) <= Released(b, release)
  {
    Product(b - a, 1.0 - release);
    Rewrite(a, release);
    Rewrite(b, release);
    assert b * (1.0 - release) - a * (1.0 - release) == (b - a) * (1.0 - release);
  }

  lemma Product(a: real, b: real)
    requires a >= 0.0 && b >= 0.0
    ensures a * b >= 0.0
  {
  }

  lemma Rewrite(g: real, release: real)
    ensures Released(g, release) == g * (1.0 - release) + release
    ensures Released(g, release) == 1.0 - (1.0 - g) * (1.0 - release)
  {
  }

  /** The running gain is that minimum over the whole input so far. */
  lemma {:induction false} GainIsLeast(xs: seq<real>, release: real)
    requires 0.0 < release < 1.0
    ensures IsLeast(GainAfter(xs, release), xs, release)
  {
    if xs != [] {
      var n := |xs| - 1;
      var p, s := xs[..n], xs[n];
      GainIsLeast(p, release);
      assert xs == p + [s];
      LeastStep(GainAfter(p, release), p, s, release);
    }
  }

  lemma LeastStep(g: real, p: seq<real>, s: real, release: real)
    requires 0.0 < release < 1.0 && IsLeast(g, p, release)
    ensures IsLeast(Min(Released(g, release), Target(s)), p + [s], release)
  {
    var xs, next := p + [s], Min(Released(g, release), Target(s));
    TargetBounds(s);
    NewestAllows(p, s, release);
    forall j | 0 <= j < |p| ensures Released(g, release) <= Recovering(xs, release, j) {
      RecoveringStep(p, s, release, j);
      ReleasedMonotone(g, Recovering(p, release, j), release);
    }
    if next == Target(s) {
      assert next == Recovering(xs, release, |p|);
    } else if g != 1.0 {
      var j :| 0 <= j < |p| && g == Recovering(p, release, j);
      RecoveringStep(p, s, release, j);
      assert next == Recovering(xs, release, j);
    }
  }

  lemma NewestAllows(p: seq<real>, s: real, release: real)
    ensures Recovering(p + [s], release, |p|) == Target(s)
  {
    assert Pow(1.0 - release, 0) == 1.0;
  }

  lemma TargetBounds(s: real)
    ensures 0.0 < Target(s) <= 1.0 && Abs(s) * Target(s) <= CEILING
  {
    var m := if Abs(s) >= CEILING then Abs(s) else CEILING;
    assert Target(s) * m == CEILING;
    assert Target(s) > 0.0;
    if m == Abs(s) {
      assert Abs(s) * Target(s) == CEILING;
      assert Target(s) <= 1.0;
    }
  }

  lemma {:induction false} GainBounds(xs: seq<real>, release: real)
    requires 0.0 < release < 1.0
    ensures 0.0 < GainAfter(xs, release) <= 1.0
  {
    if xs != [] {
      var g := GainAfter(xs[..|xs| - 1], release);
      GainBounds(xs[..|xs| - 1], release);
      TargetBounds(xs[|xs| - 1]);
      Product(1.0 - g, release);
    }
  }

  /** No output passes the ceiling. */
  lemma {:induction false} OutputBounded(xs: seq<real>, ys: seq<real>, release: real)
    requires 0.0 < release < 1.0
    ensures forall i :: 0 <= i < |Limited(xs, ys, release)| ==> Abs(Limited(xs, ys, release)[i]) <= CEILING
  {
    hide Released, Target;
    if ys != [] {
      var n := |ys| - 1;
      var s, g := ys[n], GainAfter(xs + ys, release);
      OutputBounded(xs, ys[..n], release);
      assert ys == ys[..n] + [s];
      OneMoreSample(xs, ys[..n], s, release);
      GainBounds(xs + ys, release);
      WithinCeiling(s, g);
    }
  }

  lemma WithinCeiling(s: real, g: real)
    requires 0.0 < g <= Target(s)
    ensures Abs(Scaled(s, g)) <= CEILING
  {
    TargetBounds(s);
    Product(Abs(s), Target(s) - g);
    if s >= 0.0 { Product(s, g); } else { Product(-s, g); }
  }

  /** Under quiet input the gap to unity shrinks geometrically, so the gain only rises. */
  lemma Recovery(xs: seq<real>, ys: seq<real>, release: real)
    requires 0.0 < release < 1.0
    requires forall i :: 0 <= i < |ys| ==> Abs(ys[i]) <= CEILING
    ensures 1.0 - GainAfter(xs + ys, release) == (1.0 - GainAfter(xs, release)) * Pow(1.0 - release, |ys|)
    ensures GainAfter(xs, release) <= GainAfter(xs + ys, release)
  {
    GapScales(xs, ys, release);
  }

  lemma {:induction false} GapScales(xs: seq<real>, ys: seq<real>, release: real)
    requires 0.0 < release < 1.0
    requires forall i :: 0 <= i < |ys| ==> Abs(ys[i]) <= CEILING
    ensures 1.0 - GainAfter(xs + ys, release) == Scaled(1.0 - GainAfter(xs, release), Pow(1.0 - release, |ys|))
    ensures GainAfter(xs, release) <= GainAfter(xs + ys, release)
  {
    hide *;
    if ys == [] {
      assert xs + ys == xs;
      PowIs(1.0 - GainAfter(xs, release), 1.0 - release, 0);
    } else {
      var n := |ys| - 1;
      var p, q := Pow(1.0 - release, n), Pow(1.0 - release, n + 1);
      PowIs(1.0, 1.0 - release, n);
      assert ys == ys[..n] + [ys[n]];
      GapScales(xs, ys[..n], release);
      QuietGain(xs + ys[..n], ys[n], release);
      assert xs + ys == (xs + ys[..n]) + [ys[n]];
      GapShrinks(1.0 - GainAfter(xs, release), p, 1.0 - GainAfter(xs + ys[..n], release), 1.0 - release, q);
    }
  }

  lemma PowIs(a: real, x: real, n: nat)
    ensures Scaled(a, Pow(x, 0)) == a
    ensures Pow(x, n + 1) == Scaled(x, Pow(x, n))
  {
  }

  lemma QuietGain(xs: seq<real>, s: real, release: real)
    requires 0.0 < release < 1.0 && Abs(s) <= CEILING
    ensures GainAfter(xs + [s], release) >= GainAfter(xs, release)
    ensures 1.0 - GainAfter(xs + [s], release) == Scaled(1.0 - GainAfter(xs, release), 1.0 - release)
  {
    assert (xs + [s])[..|xs|] == xs;
    var g, next := GainAfter(xs, release), GainAfter(xs + [s], release);
    assert next == Min(Released(g, release), Target(s));
    hide GainAfter, Min, Released, Target;
    GainBounds(xs, release);
    QuietStep(g, s, release);
  }

  lemma GapShrinks(a: real, p: real, b: real, c: real, q: real)
    requires b == Scaled(a, p) && q == Scaled(c, p)
    ensures Scaled(b, c) == Scaled(a, q)
  {
  }

  lemma QuietStep(g: real, s: real, release: real)
    requires 0.0 < g <= 1.0 && 0.0 < release < 1.0 && Abs(s) <= CEILING
    ensures Min(Released(g, release), Target(s)) == Released(g, release) >= g
    ensures 1.0 - Released(g, release) == (1.0 - g) * (1.0 - release)
  {
    QuietTarget(s);
    Rewrite(g, release);
    Product(1.0 - g, release);
    Product(1.0 - g, 1.0 - release);
    hide Target;
  }

  lemma QuietTarget(s: real)
    requires Abs(s) <= CEILING
    ensures Target(s) == 1.0
  {
  }

  lemma LastOfHop(xs: seq<real>, ys: seq<real>, zs: seq<real>, z: real, release: real)
    requires Limited(xs, ys + zs, release) == Limited(xs, ys, release) + Limited(xs + ys, zs, release)
    ensures Limited(xs, ys + (zs + [z]), release) == Limited(xs, ys, release) + Limited(xs + ys, zs + [z], release)
  {
    OneMoreSample(xs, ys + zs, z, release);
    OneMoreSample(xs + ys, zs, z, release);
    hide *;
    assert (ys + zs) + [z] == ys + (zs + [z]);
    assert xs + ((ys + zs) + [z]) == (xs + ys) + (zs + [z]);
  }

  /** Where the input is cut into hops makes no difference. */
  lemma {:induction false} HopsDoNotMatter(xs: seq<real>, ys: seq<real>, zs: seq<real>, release: real)
    ensures Limited(xs, ys + zs, release) == Limited(xs, ys, release) + Limited(xs + ys, zs, release)
  {
    hide Released, Target, Min, GainAfter, Scaled;
    if zs == [] {
      assert ys + zs == ys;
    } else {
      var n := |zs| - 1;
      HopsDoNotMatter(xs, ys, zs[..n], release);
      LastOfHop(xs, ys, zs[..n], zs[n], release);
      assert zs == zs[..n] + [zs[n]];
    }
  }

  // ---------------------------------------------------------------- what one sample allows

  /** The target is the largest gain, up to 1, that keeps the sample within the ceiling. */
  lemma TargetIsLargest(s: real, gain: real)
    requires gain <= 1.0
    ensures var size := if s < 0.0 then -s else s;
            0.0 < Target(s) <= 1.0 && size * Target(s) <= 0.98 && (size * gain <= 0.98 ==> gain <= Target(s))
  {
    TargetBounds(s);
    var size := Abs(s);
    if size >= CEILING {
      assert size * Target(s) == CEILING;
      if gain > Target(s) {
        Product(size, gain - Target(s));
        StrictlyMore(size, Target(s), gain);
      }
    }
  }

  lemma StrictlyMore(size: real, low: real, high: real)
    requires size > 0.0 && low < high
    ensures size * low < size * high
  {
  }

  /** Each output is its input, scaled by the gain after all samples up to it. */
  lemma {:induction false} LimitedAt(xs: seq<real>, ys: seq<real>, release: real, i: nat)
    requires i < |ys|
    ensures |Limited(xs, ys, release)| == |ys|
    ensures Limited(xs, ys, release)[i] == ys[i] * GainAfter(xs + ys[..i + 1], release)
  {
    hide GainAfter;
    var n := |ys| - 1;
    assert ys[..n + 1] == ys;
    if n > 0 {
      LimitedAt(xs, ys[..n], release, if i < n then i else 0);
      assert i < n ==> ys[..n][..i + 1] == ys[..i + 1];
    }
  }
}
