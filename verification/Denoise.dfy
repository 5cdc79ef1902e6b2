/** The noise suppressor's overload guard and its one-hop-late mix. */
module Denoise {
  const HOP: nat := 480
  const OVERRUN_TRIP: nat := 100

  /** By how much over-budget hops outnumber the others. */
  function Excess(late: seq<bool>): int {
    if late == [] then 0 else Excess(late[..|late| - 1]) + if late[|late| - 1] then 1 else -1
  }

  /** The greatest excess of a stretch that ends with the last hop; the empty stretch counts. */
  ghost predicate IsGreatestRecent(v: int, late: seq<bool>) {
    && (forall i :: 0 <= i <= |late| ==> Excess(late[i..]) <= v)
    && exists i :: 0 <= i <= |late| && Excess(late[i..]) == v
  }

  /** Some contiguous stretch of hops reaches the trip level. */
  ghost predicate Overloaded(late: seq<bool>) {
    exists i, j :: 0 <= i <= j <= |late| && Excess(late[i..j]) >= 100
  }

  lemma ExcessOneMore(late: seq<bool>, x: bool, i: nat)
    requires i <= |late|
    ensures Excess((late + [x])[i..]) == Excess(late[i..]) + if x then 1 else -1
  {
    var s := (late + [x])[i..];
    assert s[..|s| - 1] == late[i..];
  }

  lemma CounterStep(v: nat, late: seq<bool>, x: bool)
    requires IsGreatestRecent(v, late)
    ensures IsGreatestRecent(if x then v + 1 else if v > 0 then v - 1 else 0, late + [x])
  {
    var w := if x then v + 1 else if v > 0 then v - 1 else 0;
    var all := late + [x];
    assert all[|all|..] == [];
    forall i | 0 <= i <= |all| ensures Excess(all[i..]) <= w {
      if i <= |late| {
        ExcessOneMore(late, x, i);
      }
    }
    var i :| 0 <= i <= |late| && Excess(late[i..]) == v;
    ExcessOneMore(late, x, i);
    if w == 0 {
      assert Excess(all[|all|..]) == w;
    } else {
      assert Excess(all[i..]) == w;
    }
  }

  /** A new stretch can only end at the new hop. */
  lemma OverloadStep(late: seq<bool>, x: bool, v: nat)
    requires !Overloaded(late) && IsGreatestRecent(v, late + [x])
    ensures Overloaded(late + [x]) <==> v >= OVERRUN_TRIP
  {
    var all := late + [x];
    if v >= OVERRUN_TRIP {
      var i :| 0 <= i <= |all| && Excess(all[i..]) == v;
      assert all[i..|all|] == all[i..];
    }
    forall i, j | 0 <= i <= j <= |all| ensures Excess(all[i..j]) >= OVERRUN_TRIP ==> v >= OVERRUN_TRIP {
      if j <= |late| {
        assert all[i..j] == late[i..j];
      } else {
        assert all[i..j] == all[i..];
      }
    }
  }

  /** Part of the original is kept in the enhanced sample. */
  function Mixed(original: real, enhanced: real, keep: real): real {
    enhanced + (original - enhanced) * keep
  }

  /** The share `keep` is of the original: none of it at 0, only it at 1, and in proportion between. */
  lemma MixedMeans(original: real, enhanced: real, keep: real)
    ensures Mixed(original, enhanced, 0.0) == enhanced && Mixed(original, enhanced, 1.0) == original
    ensures Mixed(original, enhanced, keep) == keep * original + (1.0 - keep) * enhanced
  {
  }

  class Denoiser {
    /** Whether the model is still there; once dropped it does not return. */
    var running: bool
    var keep: real
    var overruns: nat
    const previous: array<real>
    /** Whether each processed hop was over budget, and what the last of them held. */
    ghost var late: seq<bool>

    ghost predicate Valid()
      reads this, previous
    {
      && previous.Length == HOP
      && IsGreatestRecent(overruns, late)
      && (running <==> !Overloaded(late))
      && (late != [] ==> !Overloaded(late[..|late| - 1]))
    }

    constructor (keep: real)
      ensures Valid() && running && late == [] && fresh(previous)
      ensures forall i :: 0 <= i < HOP ==> previous[i] == 0.0
    {
      running, this.keep, overruns, late := true, keep, 0, [];
      previous := new real[HOP](_ => 0.0);
      new;
      var none: seq<bool> := [];
      assert none[0..] == [] && forall i, j :: 0 <= i <= j <= 0 ==> none[i..j] == [];
    }

    /** `enhanced` is the network's output for this hop, `slow` whether it took too long. */
    method ProcessHop(frame: array<real>, enhanced: seq<real>, slow: bool)
      requires Valid() && frame != previous && |enhanced| == HOP
      modifies this`running, this`overruns, this`late, frame, previous
      ensures Valid()
      ensures frame.Length != HOP || !old(running) ==>
                unchanged(this) && frame[..] == old(frame[..]) && previous[..] == old(previous[..])
      ensures frame.Length == HOP && old(running) ==>
                && late == old(late) + [slow]
                && previous[..] == old(frame[..])
                && forall i :: 0 <= i < HOP ==> frame[i] == Mixed(old(previous[i]), enhanced[i], keep)
      ensures frame.Length == HOP && old(running) && keep == 0.0 ==> frame[..] == enhanced
      ensures frame.Length == HOP && old(running) && keep == 1.0 ==> frame[..] == old(previous[..])
    {
      if frame.Length != HOP || !running {
        return;
      }
      hide IsGreatestRecent, Overloaded, Excess;
      Mix(frame, enhanced);
      CounterStep(overruns, late, slow);
      overruns := if slow then overruns + 1 else if overruns > 0 then overruns - 1 else 0;
      OverloadStep(late, slow, overruns);
      assert (late + [slow])[..|late|] == late;
      late := late + [slow];
      if overruns >= OVERRUN_TRIP {
        running := false;
      }
    }

    /** RNNoise returns the hop before; the original of that hop is mixed back in, in place. */
    method Mix(frame: array<real>, enhanced: seq<real>)
      requires frame != previous && frame.Length == previous.Length == |enhanced| == HOP
      modifies frame, previous
      ensures previous[..] == old(frame[..])
      ensures forall i :: 0 <= i < HOP ==> frame[i] == Mixed(old(previous[i]), enhanced[i], keep)
    {
      for i := 0 to HOP
        invariant forall k :: 0 <= k < i ==>
                    previous[k] == old(frame[k]) &&
                    frame[k] == Mixed(old(previous[k]), enhanced[k], keep)
        invariant forall k :: i <= k < HOP ==> previous[k] == old(previous[k]) && frame[k] == old(frame[k])
      {
        var current := frame[i];
        frame[i] := Mixed(previous[i], enhanced[i], keep);
        previous[i] := current;
      }
    }
  }
}
