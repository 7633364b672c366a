/**
  Ratchets: a pulse with `n` repeats sounds `n + 1` times within its step,
  at the fractions `i / (n + 1)` of the step.  Offsets are exact rationals
  here; `computeRepeats` computes them in floating point.
 */
module RepeatEngine {
  import opened Models

  /** One sounding of a pulse: its step and the fraction of the step at which it sounds. */
  datatype Trigger = Trigger(step: int, offset: real)

  /** The triggers of a pulse at `pulseStep` with `repeatCount` extra repeats. */
  function Repeats(pulseStep: int, repeatCount: int): (r: seq<Trigger>)
    ensures |r| > 0 && r[0] == Trigger(pulseStep, 0.0)
  {
    if repeatCount < 0 then [Trigger(pulseStep, 0.0)]
    else seq(repeatCount + 1, i => Trigger(pulseStep, i as real / (repeatCount + 1) as real))
  }

  /** `computeRepeats`: the loop appending one trigger per sounding; the division is accepted and ignored. */
  method ComputeRepeats(pulseStep: int, repeatCount: int, division: Division) returns (triggers: seq<Trigger>)
    ensures triggers == Repeats(pulseStep, repeatCount)
  {
    if repeatCount < 0 {
      return [Trigger(pulseStep, 0.0)];
    }
    var totalTriggers := repeatCount + 1;
    triggers := [];
    for i := 0 to totalTriggers
      invariant |triggers| == i
      invariant forall j :: 0 <= j < i ==> triggers[j] == Trigger(pulseStep, j as real / totalTriggers as real)
    {
      var offset := i as real / totalTriggers as real;
      triggers := triggers + [Trigger(pulseStep, offset)];
    }
  }

  /** A negative count gives the pulse alone; otherwise there are `repeatCount + 1` triggers, all on the pulse's step. */
  lemma RepeatsCount(pulseStep: int, repeatCount: int)
    ensures repeatCount < 0 ==> Repeats(pulseStep, repeatCount) == [Trigger(pulseStep, 0.0)]
    ensures repeatCount >= 0 ==> |Repeats(pulseStep, repeatCount)| == repeatCount + 1
    ensures forall t :: t in Repeats(pulseStep, repeatCount) ==> t.step == pulseStep
  {
  }

  /** The first trigger is on the beat, the offsets rise strictly and all stay within the step, evenly spaced. */
  lemma RepeatsOffsets(pulseStep: int, repeatCount: int)
    ensures Repeats(pulseStep, repeatCount)[0].offset == 0.0
    ensures var r := Repeats(pulseStep, repeatCount);
      forall i, j :: 0 <= i < j < |r| ==> r[i].offset < r[j].offset
    ensures var r := Repeats(pulseStep, repeatCount);
      forall i :: 0 <= i < |r| ==> 0.0 <= r[i].offset < 1.0
    ensures var r := Repeats(pulseStep, repeatCount);
      forall i :: 0 < i < |r| ==> r[i].offset - r[i - 1].offset == 1.0 / |r| as real
  {
    RepeatsRise(pulseStep, repeatCount);
    RepeatsWithinStep(pulseStep, repeatCount);
    RepeatsEvenlySpaced(pulseStep, repeatCount);
  }

  lemma RepeatsRise(pulseStep: int, repeatCount: int)
    ensures var r := Repeats(pulseStep, repeatCount);
      forall i, j :: 0 <= i < j < |r| ==> r[i].offset < r[j].offset
  {
    var r := Repeats(pulseStep, repeatCount);
    if repeatCount >= 0 {
      var n := (repeatCount + 1) as real;
      forall i, j | 0 <= i < j < |r|
        ensures r[i].offset < r[j].offset
      {
        assert r[i].offset == i as real / n && r[j].offset == j as real / n;
        DivMonotone(i as real, j as real, n);
      }
    }
  }

  lemma RepeatsWithinStep(pulseStep: int, repeatCount: int)
    ensures var r := Repeats(pulseStep, repeatCount);
      forall i :: 0 <= i < |r| ==> 0.0 <= r[i].offset < 1.0
  {
    var r := Repeats(pulseStep, repeatCount);
    if repeatCount >= 0 {
      var n := (repeatCount + 1) as real;
      forall i | 0 <= i < |r|
        ensures 0.0 <= r[i].offset < 1.0
      {
        assert r[i].offset == i as real / n;
        DivMonotone(i as real, n, n);
      }
    }
  }

  lemma RepeatsEvenlySpaced(pulseStep: int, repeatCount: int)
    ensures var r := Repeats(pulseStep, repeatCount);
      forall i :: 0 < i < |r| ==> r[i].offset - r[i - 1].offset == 1.0 / |r| as real
  {
    var r := Repeats(pulseStep, repeatCount);
    if repeatCount >= 0 {
      var n := (repeatCount + 1) as real;
      assert |r| as real == n;
      forall i | 0 < i < |r|
        ensures r[i].offset - r[i - 1].offset == 1.0 / |r| as real
      {
        assert r[i].offset == i as real / n && r[i - 1].offset == (i - 1) as real / n;
        assert i as real / n - (i - 1) as real / n == (i as real - (i - 1) as real) / n;
      }
    }
  }

  lemma DivMonotone(x: real, y: real, n: real)
    requires 0.0 <= x < y && n > 0.0
    ensures 0.0 <= x / n < y / n
  {
    assert y / n - x / n == (y - x) / n;
  }

  /** Three repeats split the step into quarters. */
  lemma ThreeRepeats(pulseStep: int)
    ensures Repeats(pulseStep, 3) ==
      [Trigger(pulseStep, 0.0), Trigger(pulseStep, 0.25), Trigger(pulseStep, 0.5), Trigger(pulseStep, 0.75)]
  {
  }

  /** One repeat sounds on the beat and half-way through the step. */
  lemma OneRepeat(pulseStep: int)
    ensures Repeats(pulseStep, 1) == [Trigger(pulseStep, 0.0), Trigger(pulseStep, 0.5)]
  {
  }
}
