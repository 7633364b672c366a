/**
  The sequencer clock: a repeating timer at 24 pulses per quarter note that
  hands out consecutive tick numbers.  The dispatch timer is modelled by the
  interval it was scheduled with, and each firing by a call to `Fire`; the
  ticks handed to the tick callback are kept as a log.
 */
module ClockEngine {
  import opened Wrappers

  /** Pulses per quarter note, the MIDI clock rate. */
  const PPQ: int := 24

  const NanosPerMinute: int := 60_000_000_000

  /** Nanoseconds between ticks at a whole-number tempo, rounded down. */
  function TickInterval(bpm: int, ppq: int): (r: int)
    requires bpm > 0 && ppq > 0
    ensures r >= 0
    ensures r * (bpm * ppq) <= NanosPerMinute < (r + 1) * (bpm * ppq)
  {
    NanosPerMinute / (bpm * ppq)
  }

  /** The tick intervals at 120, 60 and 240 BPM. */
  lemma TickIntervalExamples()
    ensures TickInterval(120, PPQ) == 20_833_333
    ensures TickInterval(60, PPQ) == 41_666_666
    ensures TickInterval(240, PPQ) == 10_416_666
  {
  }

  /** A faster tempo never gives a longer interval. */
  lemma TickIntervalAntitone(slow: int, fast: int, ppq: int)
    requires 0 < slow <= fast && ppq > 0
    ensures TickInterval(fast, ppq) <= TickInterval(slow, ppq)
  {
    var f := TickInterval(fast, ppq);
    assert f * (slow * ppq) <= f * (fast * ppq) by {
      assert slow * ppq <= fast * ppq;
    }
  }

  class Clock {
    var currentTick: int
    var isRunning: bool
    /** The repeat interval of the scheduled timer, if one is scheduled. */
    var timer: Option<int>
    /** The ticks handed to the tick callback so far. */
    var delivered: seq<int>
    const ppq: int

    /** The timer is scheduled exactly while the clock runs. */
    predicate Valid()
      reads this
    {
      ppq == PPQ && (isRunning <==> timer.Some?)
    }

    constructor ()
      ensures Valid() && !isRunning && currentTick == 0 && delivered == []
    {
      currentTick := 0;
      isRunning := false;
      timer := None;
      delivered := [];
      ppq := PPQ;
    }

    /** Starts from tick 0 with a timer at the tempo's interval; does nothing while already running. */
    method Start(bpm: int)
      requires Valid() && bpm > 0
      modifies this
      ensures Valid() && isRunning && delivered == old(delivered)
      ensures old(isRunning) ==> currentTick == old(currentTick) && timer == old(timer)
      ensures !old(isRunning) ==> currentTick == 0 && timer == Some(TickInterval(bpm, ppq))
    {
      if isRunning {
        return;
      }
      currentTick := 0;
      isRunning := true;
      var interval := TickInterval(bpm, ppq);
      timer := Some(interval);
    }

    /** Cancels the timer; the tick count stays where it was. */
    method Stop()
      requires Valid()
      modifies this
      ensures Valid() && !isRunning && timer.None?
      ensures currentTick == old(currentTick) && delivered == old(delivered)
    {
      timer := None;
      isRunning := false;
    }

    /** Back to tick 0, running or not. */
    method Reset()
      requires Valid()
      modifies this
      ensures Valid() && currentTick == 0
      ensures isRunning == old(isRunning) && timer == old(timer) && delivered == old(delivered)
    {
      currentTick := 0;
    }

    /** Restarts a running clock at a new tempo, from tick 0; a stopped clock stays as it is. */
    method UpdateTempo(bpm: int)
      requires Valid() && bpm > 0
      modifies this
      ensures Valid() && delivered == old(delivered)
      ensures !old(isRunning) ==>
        !isRunning && currentTick == old(currentTick) && timer == old(timer)
      ensures old(isRunning) ==>
        isRunning && currentTick == 0 && timer == Some(TickInterval(bpm, ppq))
    {
      if !isRunning {
        return;
      }
      Stop();
      Start(bpm);
    }

    /** One firing of the timer: hands out the current tick, then counts on from it. */
    method Fire() returns (tick: int)
      requires Valid() && isRunning
      modifies this
      ensures Valid() && isRunning && timer == old(timer)
      ensures tick == old(currentTick) && currentTick == tick + 1
      ensures delivered == old(delivered) + [tick]
    {
      tick := currentTick;
      currentTick := tick + 1;
      delivered := delivered + [tick];
    }
  }

  /** Started from stopped and fired `n` times, a clock hands out exactly the ticks 0, 1, ..., n - 1. */
  method RunFromStart(clock: Clock, bpm: int, n: nat)
    requires clock.Valid() && !clock.isRunning && bpm > 0
    modifies clock
    ensures clock.Valid() && clock.isRunning && clock.currentTick == n
    ensures clock.delivered == old(clock.delivered) + seq(n, i => i)
  {
    clock.Start(bpm);
    var k := 0;
    while k < n
      invariant 0 <= k <= n
      invariant clock.Valid() && clock.isRunning && clock.currentTick == k
      invariant clock.delivered == old(clock.delivered) + seq(k, i => i)
    {
      var tick := clock.Fire();
      assert seq(k + 1, i => i) == seq(k, i => i) + [k];
      k := k + 1;
    }
  }
}
