/**
  The sequencer's behaviour as functions on a snapshot of its state: what a
  clock tick, a trigger, panic, starting and stopping playback, and the pads
  do to the track state, the per-track tick accumulators, the sounding notes,
  the messages sent and the ratchet repeats handed to delayed dispatch.
 */
module SequencerSpec {
  import opened Wrappers
  import opened SwiftInt
  import opened Models
  import opened RepeatEngine
  import opened PhraseEngine
  import opened MIDIEngine
  import opened MIDIMessages
  import opened ClockEngine

  /** A sounding note and the tick at which it is switched off. */
  datatype ActiveNote = ActiveNote(channel: int, note: int, offTick: int)

  /** A ratchet repeat handed to delayed dispatch: sent `delayNanos` later, sounding until `offTick`. */
  datatype PendingNote = PendingNote(channel: int, note: int, velocity: int, delayNanos: int, offTick: int)

  /** A snapshot of the sequencer. */
  datatype World = World(
    state: SequencerState,
    accumulators: map<int, int>,
    activeNotes: seq<ActiveNote>,
    sent: seq<MIDIMessage>,
    pending: seq<PendingNote>)

  /** `m[k, default: 0]`. */
  function Lookup(m: map<int, int>, k: int): int {
    if k in m then m[k] else 0
  }

  /** The notes due at `tick`, in their order. */
  function Expired(notes: seq<ActiveNote>, tick: int): (r: seq<ActiveNote>)
    ensures forall a :: a in r <==> a in notes && a.offTick <= tick
  {
    if |notes| == 0 then []
    else (if notes[0].offTick <= tick then [notes[0]] else []) + Expired(notes[1..], tick)
  }

  /** The notes still sounding after `tick`, in their order. */
  function Kept(notes: seq<ActiveNote>, tick: int): (r: seq<ActiveNote>)
    ensures forall a :: a in r <==> a in notes && a.offTick > tick
  {
    if |notes| == 0 then []
    else (if notes[0].offTick > tick then [notes[0]] else []) + Kept(notes[1..], tick)
  }

  /** Each note that expires and each that is kept is one of the notes, and no note is lost or doubled. */
  lemma {:induction false} ExpirePartition(notes: seq<ActiveNote>, tick: int)
    ensures multiset(Expired(notes, tick)) + multiset(Kept(notes, tick)) == multiset(notes)
  {
    if |notes| > 0 {
      var rest := notes[1..];
      ExpirePartition(rest, tick);
      ExpireStep(notes, tick);
      assert multiset(notes) == multiset{notes[0]} + multiset(rest) by {
        assert notes == [notes[0]] + rest;
      }
    }
  }

  /** The first note goes to exactly one side of the partition, ahead of the rest's. */
  lemma ExpireStep(notes: seq<ActiveNote>, tick: int)
    requires |notes| > 0
    ensures notes[0].offTick <= tick ==>
      Expired(notes, tick) == [notes[0]] + Expired(notes[1..], tick) && Kept(notes, tick) == Kept(notes[1..], tick)
    ensures notes[0].offTick > tick ==>
      Expired(notes, tick) == Expired(notes[1..], tick) && Kept(notes, tick) == [notes[0]] + Kept(notes[1..], tick)
  {
    assert [] + Expired(notes[1..], tick) == Expired(notes[1..], tick);
    assert [] + Kept(notes[1..], tick) == Kept(notes[1..], tick);
  }

  /** One note-off per note, in order. */
  function NoteOffsFor(notes: seq<ActiveNote>): (r: seq<MIDIMessage>)
    ensures |r| == |notes|
    ensures forall i :: 0 <= i < |notes| ==> r[i] == NoteOff(notes[i].channel, notes[i].note)
  {
    seq(|notes|, i requires 0 <= i < |notes| => NoteOff(notes[i].channel, notes[i].note))
  }

  /** How long a track's note sounds, in ticks: at least one, otherwise the step's ticks times the sustain, truncated. */
  function SustainTicks(track: Track): (r: int)
    ensures r >= 1
  {
    Max(1, Trunc(track.pattern.division.TicksPerStep() as real * track.sustain))
  }

  /** The ticks after the pulse at which a trigger sounds: its offset times the step's ticks, truncated. */
  function OffsetTicks(trigger: Trigger, ticksPerStep: int): int {
    Trunc(trigger.offset * ticksPerStep as real)
  }

  /** What a pulse of a track sends at once, the note it starts and the repeats it hands to delayed dispatch. */
  datatype Triggering = Triggering(noteOn: MIDIMessage, active: ActiveNote, repeats: seq<PendingNote>)

  /** `triggerNote`: the note of the step, its sustain split among the soundings, the first sounding now and the others delayed. */
  function TriggerEffect(shapeOffset: ShapeOffset, track: Track, step: int, tick: int, tempo: int): (r: Triggering)
    requires tempo > 0
    ensures r.noteOn.NoteOn? && r.noteOn.channel == track.midiChannel && r.noteOn.velocity == track.velocity
    ensures 0 <= r.noteOn.note <= 127
    ensures r.active == ActiveNote(track.midiChannel, r.noteOn.note,
      tick + Max(1, SwiftDiv(SustainTicks(track), |Repeats(step, track.repeats)|)))
    ensures |r.repeats| == Max(track.repeats, 0)
  {
    var baseNote := 60 + track.melodic.rootNote.RawValue() + track.melodic.transpose;
    var midiNote := ComputeMIDINote(shapeOffset, baseNote, track.melodic, step, track.pattern.steps);
    var ticksPerStep := track.pattern.division.TicksPerStep();
    var triggers := Repeats(step, track.repeats);
    RepeatsCount(step, track.repeats);
    RepeatsOffsets(step, track.repeats);
    var repeatSustain := Max(1, SwiftDiv(SustainTicks(track), |triggers|));
    assert OffsetTicks(triggers[0], ticksPerStep) == 0;
    Triggering(
      NoteOn(track.midiChannel, midiNote, track.velocity),
      ActiveNote(track.midiChannel, midiNote, tick + OffsetTicks(triggers[0], ticksPerStep) + repeatSustain),
      Delayed(track.midiChannel, midiNote, track.velocity, TickInterval(tempo, PPQ), triggers, ticksPerStep, tick, repeatSustain))
  }

  /** The parts of a pulse's effect, named as `triggerNote` computes them. */
  lemma TriggerEffectParts(shapeOffset: ShapeOffset, track: Track, step: int, tick: int, tempo: int)
    requires tempo > 0
    ensures var triggers := Repeats(step, track.repeats);
      var midiNote := ComputeMIDINote(shapeOffset, 60 + track.melodic.rootNote.RawValue() + track.melodic.transpose,
                                      track.melodic, step, track.pattern.steps);
      var ticksPerStep := track.pattern.division.TicksPerStep();
      var repeatSustain := Max(1, SwiftDiv(SustainTicks(track), |triggers|));
      var r := TriggerEffect(shapeOffset, track, step, tick, tempo);
      && |triggers| > 0
      && r.noteOn == NoteOn(track.midiChannel, midiNote, track.velocity)
      && r.active == ActiveNote(track.midiChannel, midiNote, tick + OffsetTicks(triggers[0], ticksPerStep) + repeatSustain)
      && r.repeats == Delayed(track.midiChannel, midiNote, track.velocity, TickInterval(tempo, PPQ), triggers, ticksPerStep, tick, repeatSustain)
  {
    RepeatsCount(step, track.repeats);
  }

  /** A pulse's effect on the snapshot, from the parts `triggerNote` computes. */
  lemma AddTriggerParts(shapeOffset: ShapeOffset, w: World, track: Track, step: int, tick: int,
                        midiNote: int, triggers: seq<Trigger>, ticksPerStep: int, repeatSustain: int, interval: int)
    requires w.state.tempo > 0
    requires midiNote == ComputeMIDINote(shapeOffset, 60 + track.melodic.rootNote.RawValue() + track.melodic.transpose,
                                         track.melodic, step, track.pattern.steps)
    requires triggers == Repeats(step, track.repeats) && ticksPerStep == track.pattern.division.TicksPerStep()
    requires repeatSustain == Max(1, SwiftDiv(SustainTicks(track), |triggers|)) && interval == TickInterval(w.state.tempo, PPQ)
    ensures |triggers| > 0
    ensures AddTrigger(shapeOffset, w, track, step, tick) == w.(
      sent := w.sent + [NoteOn(track.midiChannel, midiNote, track.velocity)],
      activeNotes := w.activeNotes + [ActiveNote(track.midiChannel, midiNote, tick + OffsetTicks(triggers[0], ticksPerStep) + repeatSustain)],
      pending := w.pending + Delayed(track.midiChannel, midiNote, track.velocity, interval, triggers, ticksPerStep, tick, repeatSustain))
  {
    TriggerEffectParts(shapeOffset, track, step, tick, w.state.tempo);
  }

  /** The repeats of a pulse after its first sounding: each sent its offset's ticks later, at `interval` nanoseconds a tick, and sounding `repeatSustain` ticks. */
  function Delayed(channel: int, note: int, velocity: int, interval: int, triggers: seq<Trigger>,
                   ticksPerStep: int, tick: int, repeatSustain: int): (r: seq<PendingNote>)
    requires |triggers| > 0
  {
    seq(|triggers| - 1, j requires 0 <= j < |triggers| - 1 =>
      var offsetTicks := OffsetTicks(triggers[j + 1], ticksPerStep);
      PendingNote(channel, note, velocity, interval * offsetTicks, tick + offsetTicks + repeatSustain))
  }

  /** The first sounding's note-off is due strictly after the tick, after its share of the sustain. */
  lemma TriggerFirstTiming(shapeOffset: ShapeOffset, track: Track, step: int, tick: int, tempo: int)
    requires tempo > 0
    ensures var r := TriggerEffect(shapeOffset, track, step, tick, tempo);
      && r.active.offTick > tick
      && (track.repeats >= 0 ==>
            r.active.offTick == tick + Max(1, SwiftDiv(SustainTicks(track), track.repeats + 1)))
  {
    var triggers := Repeats(step, track.repeats);
    TriggerEffectParts(shapeOffset, track, step, tick, tempo);
    RepeatsCount(step, track.repeats);
    assert OffsetTicks(triggers[0], track.pattern.division.TicksPerStep()) == 0 by {
      RepeatsOffsets(step, track.repeats);
    }
  }

  /** Every repeat of `r` plays the note `r` starts, sounds a whole number of ticks into the step, is delayed by that many tick intervals, and is switched off after it sounds. */
  predicate RepeatsTimed(r: Triggering, triggers: seq<Trigger>, ticksPerStep: int, interval: int, tick: int) {
    forall j :: 0 <= j < |r.repeats| ==>
      && j + 1 < |triggers| && r.noteOn.NoteOn?
      && var offsetTicks := OffsetTicks(triggers[j + 1], ticksPerStep);
      && 0 <= offsetTicks < ticksPerStep
      && r.repeats[j].note == r.noteOn.note
      && r.repeats[j].delayNanos == interval * offsetTicks
      && r.repeats[j].offTick > tick + offsetTicks
  }

  /** Every repeat is delayed by a whole number of ticks within the step, plays the pulse's note, and is switched off after it sounds. */
  lemma TriggerRepeatTiming(shapeOffset: ShapeOffset, track: Track, step: int, tick: int, tempo: int)
    requires tempo > 0
    ensures RepeatsTimed(TriggerEffect(shapeOffset, track, step, tick, tempo), Repeats(step, track.repeats),
                         track.pattern.division.TicksPerStep(), TickInterval(tempo, PPQ), tick)
  {
    var r := TriggerEffect(shapeOffset, track, step, tick, tempo);
    var ticksPerStep := track.pattern.division.TicksPerStep();
    var triggers := Repeats(step, track.repeats);
    var midiNote := ComputeMIDINote(shapeOffset, 60 + track.melodic.rootNote.RawValue() + track.melodic.transpose,
                                    track.melodic, step, track.pattern.steps);
    var repeatSustain := Max(1, SwiftDiv(SustainTicks(track), |triggers|));
    TriggerEffectParts(shapeOffset, track, step, tick, tempo);
    RepeatsWithinStep(step, track.repeats);
    RepeatTiming(r, track.midiChannel, midiNote, track.velocity, TickInterval(tempo, PPQ), triggers, ticksPerStep, tick, repeatSustain);
  }

  /** The timing of the repeats a triggering hands on, from the repeats it is made of. */
  lemma RepeatTiming(t: Triggering, channel: int, note: int, velocity: int, interval: int, triggers: seq<Trigger>,
                     ticksPerStep: int, tick: int, repeatSustain: int)
    requires |triggers| > 0 && ticksPerStep > 0 && repeatSustain >= 1
    requires forall i :: 0 <= i < |triggers| ==> 0.0 <= triggers[i].offset < 1.0
    requires t.noteOn.NoteOn? && t.noteOn.note == note
    requires t.repeats == Delayed(channel, note, velocity, interval, triggers, ticksPerStep, tick, repeatSustain)
    ensures RepeatsTimed(t, triggers, ticksPerStep, interval, tick)
  {
    DelayedTiming(channel, note, velocity, interval, triggers, ticksPerStep, tick, repeatSustain);
  }

  /** One repeat per trigger after the first, each a whole number of ticks into the step, delayed by that many tick intervals, and due after it sounds. */
  lemma DelayedTiming(channel: int, note: int, velocity: int, interval: int, triggers: seq<Trigger>,
                      ticksPerStep: int, tick: int, repeatSustain: int)
    requires |triggers| > 0 && ticksPerStep > 0 && repeatSustain >= 1
    requires forall i :: 0 <= i < |triggers| ==> 0.0 <= triggers[i].offset < 1.0
    ensures var d := Delayed(channel, note, velocity, interval, triggers, ticksPerStep, tick, repeatSustain);
      && |d| == |triggers| - 1
      && forall j :: 0 <= j < |d| ==>
        var offsetTicks := OffsetTicks(triggers[j + 1], ticksPerStep);
        && 0 <= offsetTicks < ticksPerStep
        && d[j].note == note
        && d[j].delayNanos == interval * offsetTicks
        && d[j].offTick > tick + offsetTicks
  {
    var d := Delayed(channel, note, velocity, interval, triggers, ticksPerStep, tick, repeatSustain);
    forall j | 0 <= j < |d|
      ensures var offsetTicks := OffsetTicks(triggers[j + 1], ticksPerStep);
        && 0 <= offsetTicks < ticksPerStep
        && d[j].note == note
        && d[j].delayNanos == interval * offsetTicks
        && d[j].offTick > tick + offsetTicks
    {
      OffsetWithinStep(triggers[j + 1], ticksPerStep);
    }
  }

  /** A trigger within the step sounds a whole number of ticks into it, short of the next step. */
  lemma OffsetWithinStep(trigger: Trigger, ticksPerStep: int)
    requires 0.0 <= trigger.offset < 1.0 && ticksPerStep > 0
    ensures 0 <= OffsetTicks(trigger, ticksPerStep) < ticksPerStep
  {
    var x, t := trigger.offset, ticksPerStep as real;
    assert 0.0 <= x * t;
    assert t - x * t == (1.0 - x) * t;
    assert (1.0 - x) * t > 0.0;
    var r := Trunc(x * t);
    assert r as real <= x * t < t;
  }

  /** A tick can advance a track: its step count is a valid divisor. */
  predicate CanAdvance(tracks: seq<Track>) {
    forall i :: 0 <= i < |tracks| ==> tracks[i].pattern.steps != 0
  }

  /** The effect of a pulse on the snapshot: the note-on is sent, its note registered, its repeats handed on. */
  function AddTrigger(shapeOffset: ShapeOffset, w: World, track: Track, step: int, tick: int): (r: World)
    requires w.state.tempo > 0
    ensures r.state == w.state && r.accumulators == w.accumulators
  {
    var t := TriggerEffect(shapeOffset, track, step, tick, w.state.tempo);
    w.(sent := w.sent + [t.noteOn], activeNotes := w.activeNotes + [t.active], pending := w.pending + t.repeats)
  }

  /** Does counting one more tick complete the track's step? */
  predicate AtBoundary(w: World, track: Track) {
    Lookup(w.accumulators, track.id) + 1 >= track.pattern.division.TicksPerStep()
  }

  /** One track's share of a tick: count the tick; at a step boundary restart the count, move the playhead on, and trigger if the step being left is a pulse of an unmuted track. */
  function AdvanceTrack(shapeOffset: ShapeOffset, w: World, track: Track, tick: int): (r: World)
    requires w.state.tempo > 0 && track.pattern.steps != 0
    ensures r.state == w.state.(playheadPositions := r.state.playheadPositions)
  {
    var ticksPerStep := track.pattern.division.TicksPerStep();
    var count := Lookup(w.accumulators, track.id) + 1;
    if count >= ticksPerStep then
      var currentStep := Lookup(w.state.playheadPositions, track.id);
      var nextStep := SwiftRem(currentStep + 1, track.pattern.steps);
      var moved := w.(accumulators := w.accumulators[track.id := 0],
                      state := w.state.(playheadPositions := w.state.playheadPositions[track.id := nextStep]));
      if currentStep in track.pattern.PulsePositions() && !track.isMuted then
        AddTrigger(shapeOffset, moved, track, currentStep, tick)
      else moved
    else
      w.(accumulators := w.accumulators[track.id := count])
  }

  /** The first `k` tracks' shares of a tick, in track order. */
  function AdvanceAll(shapeOffset: ShapeOffset, w: World, tracks: seq<Track>, k: nat, tick: int): (r: World)
    requires k <= |tracks| && w.state.tempo > 0 && CanAdvance(tracks)
    ensures r.state == w.state.(playheadPositions := r.state.playheadPositions)
  {
    if k == 0 then w
    else AdvanceTrack(shapeOffset, AdvanceAll(shapeOffset, w, tracks, k - 1, tick), tracks[k - 1], tick)
  }


  /** The snapshot once the clock and the note-offs due at `tick` have been sent and the expired notes dropped. */
  function ExpireNotes(w: World, tick: int): (r: World)
    ensures r.state == w.state && r.accumulators == w.accumulators && r.pending == w.pending
    ensures w.sent + [Clock] <= r.sent && |r.sent| == |w.sent| + 1 + |Expired(w.activeNotes, tick)|
    ensures forall a :: a in r.activeNotes <==> a in w.activeNotes && a.offTick > tick
  {
    w.(sent := w.sent + [Clock] + NoteOffsFor(Expired(w.activeNotes, tick)),
       activeNotes := Kept(w.activeNotes, tick))
  }

  /** `handleTick`: clock, due note-offs, then every track in order. */
  function Tick(shapeOffset: ShapeOffset, w: World, tick: int): (r: World)
    requires w.state.tempo > 0 && CanAdvance(w.state.tracks)
    ensures r.state == w.state.(playheadPositions := r.state.playheadPositions)
  {
    AdvanceAll(shapeOffset, ExpireNotes(w, tick), w.state.tracks, |w.state.tracks|, tick)
  }

  /** A step boundary is exactly when the incremented count reaches the step's ticks: the count restarts and the playhead moves one step on, cyclically; otherwise only the count grows. */
  lemma StepBoundary(shapeOffset: ShapeOffset, w: World, track: Track, tick: int)
    requires w.state.tempo > 0 && track.pattern.steps > 0
    requires 0 <= Lookup(w.state.playheadPositions, track.id)
    ensures var r := AdvanceTrack(shapeOffset, w, track, tick);
      AtBoundary(w, track) ==>
        && r.accumulators == w.accumulators[track.id := 0]
        && r.state.playheadPositions == w.state.playheadPositions[track.id :=
             (Lookup(w.state.playheadPositions, track.id) + 1) % track.pattern.steps]
        && 0 <= Lookup(r.state.playheadPositions, track.id) < track.pattern.steps
    ensures var r := AdvanceTrack(shapeOffset, w, track, tick);
      !AtBoundary(w, track) ==>
        && r.accumulators == w.accumulators[track.id := Lookup(w.accumulators, track.id) + 1]
        && Lookup(r.accumulators, track.id) < track.pattern.division.TicksPerStep()
        && r == w.(accumulators := r.accumulators)
  {
    if AtBoundary(w, track) {
      AtBoundaryMoves(shapeOffset, w, track, tick);
    }
  }

  lemma AtBoundaryMoves(shapeOffset: ShapeOffset, w: World, track: Track, tick: int)
    requires w.state.tempo > 0 && track.pattern.steps > 0
    requires 0 <= Lookup(w.state.playheadPositions, track.id)
    requires AtBoundary(w, track)
    ensures var r := AdvanceTrack(shapeOffset, w, track, tick);
      && r.accumulators == w.accumulators[track.id := 0]
      && r.state.playheadPositions == w.state.playheadPositions[track.id :=
           (Lookup(w.state.playheadPositions, track.id) + 1) % track.pattern.steps]
      && 0 <= Lookup(r.state.playheadPositions, track.id) < track.pattern.steps
  {
    var left := Lookup(w.state.playheadPositions, track.id);
    SwiftRemBounds(left + 1, track.pattern.steps);
    BoundaryFields(shapeOffset, w, track, tick);
  }

  /** At a step boundary the count restarts and the playhead moves to `(step + 1) rem steps`, whether or not the track fires. */
  lemma BoundaryFields(shapeOffset: ShapeOffset, w: World, track: Track, tick: int)
    requires w.state.tempo > 0 && track.pattern.steps != 0 && AtBoundary(w, track)
    ensures var r := AdvanceTrack(shapeOffset, w, track, tick);
      && r.accumulators == w.accumulators[track.id := 0]
      && r.state.playheadPositions == w.state.playheadPositions[track.id :=
           SwiftRem(Lookup(w.state.playheadPositions, track.id) + 1, track.pattern.steps)]
  {
  }

  /** Does this tick trigger the track?  Only at a boundary, leaving a pulse step, unmuted. */
  predicate Fires(w: World, track: Track) {
    && AtBoundary(w, track)
    && Lookup(w.state.playheadPositions, track.id) in track.pattern.PulsePositions()
    && !track.isMuted
  }

  /** The note-on a track sends when it fires: the note of the step being left, not of the one entered. */
  function StepNoteOn(shapeOffset: ShapeOffset, track: Track, step: int): MIDIMessage {
    NoteOn(track.midiChannel,
      ComputeMIDINote(shapeOffset, 60 + track.melodic.rootNote.RawValue() + track.melodic.transpose,
                      track.melodic, step, track.pattern.steps),
      track.velocity)
  }

  /** A track sends exactly when it fires, and then only the note-on of the step being left. */
  lemma TriggerOnStepLeft(shapeOffset: ShapeOffset, w: World, track: Track, tick: int)
    requires w.state.tempo > 0 && track.pattern.steps != 0
    ensures Fires(w, track) ==>
      (AdvanceTrack(shapeOffset, w, track, tick).sent
         == w.sent + [StepNoteOn(shapeOffset, track, Lookup(w.state.playheadPositions, track.id))])
    ensures !Fires(w, track) ==> AdvanceTrack(shapeOffset, w, track, tick).sent == w.sent
  {
    if Fires(w, track) {
      FiringSends(shapeOffset, w, track, tick);
    } else if AtBoundary(w, track) {
      SilentBoundary(shapeOffset, w, track, tick);
    }
  }

  lemma FiringSends(shapeOffset: ShapeOffset, w: World, track: Track, tick: int)
    requires w.state.tempo > 0 && track.pattern.steps != 0 && Fires(w, track)
    ensures AdvanceTrack(shapeOffset, w, track, tick).sent
      == w.sent + [StepNoteOn(shapeOffset, track, Lookup(w.state.playheadPositions, track.id))]
  {
    var left := Lookup(w.state.playheadPositions, track.id);
    var t := TriggerEffect(shapeOffset, track, left, tick, w.state.tempo);
    assert t.noteOn == StepNoteOn(shapeOffset, track, left);
  }

  lemma SilentBoundary(shapeOffset: ShapeOffset, w: World, track: Track, tick: int)
    requires w.state.tempo > 0 && track.pattern.steps != 0 && AtBoundary(w, track) && !Fires(w, track)
    ensures AdvanceTrack(shapeOffset, w, track, tick).sent == w.sent
  {
  }

  /** `r` only appends to the messages, sounding notes and repeats of `w`, and every note it adds is due after `tick`. */
  predicate Extends(w: World, r: World, tick: int) {
    && w.sent <= r.sent && w.activeNotes <= r.activeNotes && w.pending <= r.pending
    && forall i :: |w.activeNotes| <= i < |r.activeNotes| ==> r.activeNotes[i].offTick > tick
  }

  lemma ExtendsTransitive(a: World, b: World, c: World, tick: int)
    requires Extends(a, b, tick) && Extends(b, c, tick)
    ensures Extends(a, c, tick)
  {
    assert c.activeNotes[..|b.activeNotes|] == b.activeNotes;
    forall i | |a.activeNotes| <= i < |c.activeNotes|
      ensures c.activeNotes[i].offTick > tick
    {
      if i < |b.activeNotes| {
        assert c.activeNotes[i] == b.activeNotes[i];
      }
    }
  }

  /** A track's share of a tick only appends, every note it adds is due after the tick, and the counts and playheads of other track numbers are untouched. */
  lemma AdvanceTrackFrame(shapeOffset: ShapeOffset, w: World, track: Track, tick: int)
    requires w.state.tempo > 0 && track.pattern.steps != 0
    ensures var r := AdvanceTrack(shapeOffset, w, track, tick);
      && Extends(w, r, tick)
      && (forall k :: k != track.id ==> Lookup(r.accumulators, k) == Lookup(w.accumulators, k))
      && (forall k :: k != track.id ==>
            Lookup(r.state.playheadPositions, k) == Lookup(w.state.playheadPositions, k))
  {
    var left := Lookup(w.state.playheadPositions, track.id);
    if Fires(w, track) {
      FiringExtends(shapeOffset, w, track, tick);
    }
  }

  lemma FiringExtends(shapeOffset: ShapeOffset, w: World, track: Track, tick: int)
    requires w.state.tempo > 0 && track.pattern.steps != 0 && Fires(w, track)
    ensures Extends(w, AdvanceTrack(shapeOffset, w, track, tick), tick)
  {
    var r := AdvanceTrack(shapeOffset, w, track, tick);
    var left := Lookup(w.state.playheadPositions, track.id);
    var t := TriggerEffect(shapeOffset, track, left, tick, w.state.tempo);
    TriggerFirstTiming(shapeOffset, track, left, tick, w.state.tempo);
    assert r.sent == w.sent + [t.noteOn] && r.pending == w.pending + t.repeats;
    assert r.activeNotes == w.activeNotes + [t.active];
  }

  /** The first `k` tracks' shares of a tick only append, and every note they add is due after the tick. */
  predicate AppendsUpTo(shapeOffset: ShapeOffset, w: World, tracks: seq<Track>, k: nat, tick: int)
    requires k <= |tracks| && w.state.tempo > 0 && CanAdvance(tracks)
  {
    Extends(w, AdvanceAll(shapeOffset, w, tracks, k, tick), tick)
  }

  /** The tracks' shares of a tick only append, and every note they add is due after the tick. */
  lemma {:induction false} AdvanceAllAppends(shapeOffset: ShapeOffset, w: World, tracks: seq<Track>, k: nat, tick: int)
    requires k <= |tracks| && w.state.tempo > 0 && CanAdvance(tracks)
    ensures AppendsUpTo(shapeOffset, w, tracks, k, tick)
  {
    if k > 0 {
      AdvanceAllAppends(shapeOffset, w, tracks, k - 1, tick);
      AppendsStep(shapeOffset, w, tracks, k, tick);
    }
  }

  lemma AppendsStep(shapeOffset: ShapeOffset, w: World, tracks: seq<Track>, k: nat, tick: int)
    requires 0 < k <= |tracks| && w.state.tempo > 0 && CanAdvance(tracks)
    requires AppendsUpTo(shapeOffset, w, tracks, k - 1, tick)
    ensures AppendsUpTo(shapeOffset, w, tracks, k, tick)
  {
    var p := AdvanceAll(shapeOffset, w, tracks, k - 1, tick);
    AdvanceTrackFrame(shapeOffset, p, tracks[k - 1], tick);
    ExtendsTransitive(w, p, AdvanceAll(shapeOffset, w, tracks, k, tick), tick);
  }

  /** `handleTick` sends the clock first and then exactly the note-offs of the notes due, in order; the notes not due stay registered in order, and no note left registered is due at the tick. */
  lemma TickOrder(shapeOffset: ShapeOffset, w: World, tick: int)
    requires w.state.tempo > 0 && CanAdvance(w.state.tracks)
    ensures var r := Tick(shapeOffset, w, tick);
      && w.sent + [Clock] + NoteOffsFor(Expired(w.activeNotes, tick)) <= r.sent
      && Kept(w.activeNotes, tick) <= r.activeNotes
      && w.pending <= r.pending
      && forall a :: a in r.activeNotes ==> a.offTick > tick
  {
    var e := ExpireNotes(w, tick);
    AdvanceAllAppends(shapeOffset, e, w.state.tracks, |w.state.tracks|, tick);
    var r := Tick(shapeOffset, w, tick);
    forall a | a in r.activeNotes
      ensures a.offTick > tick
    {
      var i :| 0 <= i < |r.activeNotes| && r.activeNotes[i] == a;
      if i < |e.activeNotes| {
        assert e.activeNotes[i] == a;
      }
    }
  }

  /** No two tracks share a number. */
  predicate DistinctIds(tracks: seq<Track>) {
    forall i, j :: 0 <= i < j < |tracks| ==> tracks[i].id != tracks[j].id
  }

  /** Every track's tick count is below its step's ticks. */
  predicate CountsBelowStep(accumulators: map<int, int>, tracks: seq<Track>) {
    forall i :: 0 <= i < |tracks| ==>
      0 <= Lookup(accumulators, tracks[i].id) < tracks[i].pattern.division.TicksPerStep()
  }

  /** Every track's playhead is one of its steps. */
  predicate PlayheadsInRange(playheads: map<int, int>, tracks: seq<Track>) {
    forall i :: 0 <= i < |tracks| ==> 0 <= Lookup(playheads, tracks[i].id) < tracks[i].pattern.steps
  }

  /** One track's share of a tick keeps its count below the step's ticks. */
  lemma TrackCount(shapeOffset: ShapeOffset, w: World, track: Track, tick: int)
    requires w.state.tempo > 0 && track.pattern.steps != 0
    requires 0 <= Lookup(w.accumulators, track.id)
    ensures 0 <= Lookup(AdvanceTrack(shapeOffset, w, track, tick).accumulators, track.id)
              < track.pattern.division.TicksPerStep()
  {
    if AtBoundary(w, track) {
      var left := Lookup(w.state.playheadPositions, track.id);
      var moved := w.(accumulators := w.accumulators[track.id := 0],
                      state := w.state.(playheadPositions := w.state.playheadPositions[track.id := SwiftRem(left + 1, track.pattern.steps)]));
      assert AdvanceTrack(shapeOffset, w, track, tick).accumulators == moved.accumulators;
    }
  }

  /** The first `k` tracks of a tick leave the first `k` counts below their step's ticks, and the others as they were. */
  lemma {:induction false} AdvanceAllCounts(shapeOffset: ShapeOffset, w: World, tracks: seq<Track>, k: nat, tick: int)
    requires k <= |tracks| && w.state.tempo > 0 && CanAdvance(tracks) && DistinctIds(tracks)
    requires forall i :: 0 <= i < |tracks| ==> 0 <= Lookup(w.accumulators, tracks[i].id)
    ensures var r := AdvanceAll(shapeOffset, w, tracks, k, tick);
      && (forall i :: 0 <= i < k ==>
            0 <= Lookup(r.accumulators, tracks[i].id) < tracks[i].pattern.division.TicksPerStep())
      && (forall i :: k <= i < |tracks| ==>
            Lookup(r.accumulators, tracks[i].id) == Lookup(w.accumulators, tracks[i].id))
  {
    if k > 0 {
      AdvanceAllCounts(shapeOffset, w, tracks, k - 1, tick);
      var p := AdvanceAll(shapeOffset, w, tracks, k - 1, tick);
      var track := tracks[k - 1];
      var r := AdvanceTrack(shapeOffset, p, track, tick);
      assert AdvanceAll(shapeOffset, w, tracks, k, tick) == r;
      AdvanceTrackFrame(shapeOffset, p, track, tick);
      TrackCount(shapeOffset, p, track, tick);
      CountsStep(p.accumulators, r.accumulators, tracks, k, w.accumulators);
    }
  }

  /** The count bounds carried from `k - 1` tracks to `k`, when only track `k - 1`'s count changed and is in range. */
  lemma CountsStep(before: map<int, int>, after: map<int, int>, tracks: seq<Track>, k: nat, original: map<int, int>)
    requires 0 < k <= |tracks| && DistinctIds(tracks)
    requires forall i :: 0 <= i < k - 1 ==>
      0 <= Lookup(before, tracks[i].id) < tracks[i].pattern.division.TicksPerStep()
    requires forall i :: k - 1 <= i < |tracks| ==> Lookup(before, tracks[i].id) == Lookup(original, tracks[i].id)
    requires forall id :: id != tracks[k - 1].id ==> Lookup(after, id) == Lookup(before, id)
    requires 0 <= Lookup(after, tracks[k - 1].id) < tracks[k - 1].pattern.division.TicksPerStep()
    ensures forall i :: 0 <= i < k ==>
      0 <= Lookup(after, tracks[i].id) < tracks[i].pattern.division.TicksPerStep()
    ensures forall i :: k <= i < |tracks| ==> Lookup(after, tracks[i].id) == Lookup(original, tracks[i].id)
  {
    forall i | 0 <= i < |tracks| && i != k - 1
      ensures Lookup(after, tracks[i].id) == Lookup(before, tracks[i].id)
    {
      if i < k - 1 {
        assert tracks[i].id != tracks[k - 1].id;
      } else {
        assert tracks[k - 1].id != tracks[i].id;
      }
    }
  }

  /** The first `k` tracks of a tick keep every playhead in range, and leave the later tracks' playheads as they were. */
  lemma {:induction false} AdvanceAllPlayheads(shapeOffset: ShapeOffset, w: World, tracks: seq<Track>, k: nat, tick: int)
    requires k <= |tracks| && w.state.tempo > 0 && CanAdvance(tracks) && DistinctIds(tracks)
    requires PlayheadsInRange(w.state.playheadPositions, tracks)
    ensures var r := AdvanceAll(shapeOffset, w, tracks, k, tick);
      && PlayheadsInRange(r.state.playheadPositions, tracks)
      && (forall i :: k <= i < |tracks| ==>
            Lookup(r.state.playheadPositions, tracks[i].id) == Lookup(w.state.playheadPositions, tracks[i].id))
  {
    if k > 0 {
      AdvanceAllPlayheads(shapeOffset, w, tracks, k - 1, tick);
      var p := AdvanceAll(shapeOffset, w, tracks, k - 1, tick);
      var track := tracks[k - 1];
      var r := AdvanceTrack(shapeOffset, p, track, tick);
      assert AdvanceAll(shapeOffset, w, tracks, k, tick) == r;
      assert 0 <= Lookup(p.state.playheadPositions, track.id) < track.pattern.steps;
      AdvanceTrackFrame(shapeOffset, p, track, tick);
      AtBoundaryOrNot(shapeOffset, p, track, tick);
      PlayheadsStep(p.state.playheadPositions, r.state.playheadPositions, tracks, k, w.state.playheadPositions);
    }
  }

  /** The playhead bounds carried from `k - 1` tracks to `k`, when only track `k - 1`'s playhead changed and is in range. */
  lemma PlayheadsStep(before: map<int, int>, after: map<int, int>, tracks: seq<Track>, k: nat, original: map<int, int>)
    requires 0 < k <= |tracks| && DistinctIds(tracks)
    requires PlayheadsInRange(before, tracks)
    requires forall i :: k - 1 <= i < |tracks| ==> Lookup(before, tracks[i].id) == Lookup(original, tracks[i].id)
    requires forall id :: id != tracks[k - 1].id ==> Lookup(after, id) == Lookup(before, id)
    requires 0 <= Lookup(after, tracks[k - 1].id) < tracks[k - 1].pattern.steps
    ensures PlayheadsInRange(after, tracks)
    ensures forall i :: k <= i < |tracks| ==> Lookup(after, tracks[i].id) == Lookup(original, tracks[i].id)
  {
    forall i | 0 <= i < |tracks| && i != k - 1
      ensures Lookup(after, tracks[i].id) == Lookup(before, tracks[i].id)
    {
      if i < k - 1 {
        assert tracks[i].id != tracks[k - 1].id;
      } else {
        assert tracks[k - 1].id != tracks[i].id;
      }
    }
  }

  /** One track's share of a tick keeps its playhead in range. */
  lemma AtBoundaryOrNot(shapeOffset: ShapeOffset, w: World, track: Track, tick: int)
    requires w.state.tempo > 0 && track.pattern.steps > 0
    requires 0 <= Lookup(w.state.playheadPositions, track.id) < track.pattern.steps
    ensures 0 <= Lookup(AdvanceTrack(shapeOffset, w, track, tick).state.playheadPositions, track.id) < track.pattern.steps
  {
    StepBoundary(shapeOffset, w, track, tick);
  }

  /** After `handleTick`, with distinct track numbers, every track's count is below its step's ticks and every playhead stays one of its track's steps. */
  lemma TickBounds(shapeOffset: ShapeOffset, w: World, tick: int)
    requires w.state.tempo > 0 && CanAdvance(w.state.tracks) && DistinctIds(w.state.tracks)
    requires forall i :: 0 <= i < |w.state.tracks| ==> 0 <= Lookup(w.accumulators, w.state.tracks[i].id)
    requires PlayheadsInRange(w.state.playheadPositions, w.state.tracks)
    ensures var r := Tick(shapeOffset, w, tick);
      && CountsBelowStep(r.accumulators, w.state.tracks)
      && PlayheadsInRange(r.state.playheadPositions, w.state.tracks)
  {
    AdvanceAllCounts(shapeOffset, ExpireNotes(w, tick), w.state.tracks, |w.state.tracks|, tick);
    AdvanceAllPlayheads(shapeOffset, ExpireNotes(w, tick), w.state.tracks, |w.state.tracks|, tick);
  }

  /** The channels panic silences. */
  const PanicChannels: int := 4

  /** Panic's messages: a note-off for every note of channels 1 to 4, channel by channel, notes upwards. */
  function PanicMessages(): (r: seq<MIDIMessage>)
    ensures |r| == PanicChannels * 128
  {
    seq(PanicChannels * 128, i => NoteOff(i / 128 + 1, i % 128))
  }

  /** Every note of channels 1 to 4 is switched off, at its place in channel-major order, and nothing else is sent. */
  lemma PanicCoversAll()
    ensures forall channel, note :: 1 <= channel <= PanicChannels && 0 <= note < 128 ==>
      PanicMessages()[(channel - 1) * 128 + note] == NoteOff(channel, note)
    ensures forall m :: m in PanicMessages() ==>
      m.NoteOff? && 1 <= m.channel <= PanicChannels && 0 <= m.note < 128
  {
    forall channel, note | 1 <= channel <= PanicChannels && 0 <= note < 128
      ensures PanicMessages()[(channel - 1) * 128 + note] == NoteOff(channel, note)
    {
      var i := (channel - 1) * 128 + note;
      DivModUnique(i, channel - 1, note, 128);
    }
  }

  /** Panic's messages one at a time: the one at `(channel - 1) * 128 + note` switches off that note of that channel. */
  lemma PanicMessagesStep(channel: int, note: int)
    requires 1 <= channel <= PanicChannels && 0 <= note < 128
    ensures var i := (channel - 1) * 128 + note;
      PanicMessages()[..i + 1] == PanicMessages()[..i] + [NoteOff(channel, note)]
  {
    var i := (channel - 1) * 128 + note;
    DivModUnique(i, channel - 1, note, 128);
    assert PanicMessages()[i] == NoteOff(channel, note);
    assert PanicMessages()[..i + 1] == PanicMessages()[..i] + [PanicMessages()[i]];
  }

  /** `panic`: silence everything and forget the sounding notes. */
  function Panic(w: World): (r: World)
    ensures r.activeNotes == [] && r.state == w.state && r.accumulators == w.accumulators && r.pending == w.pending
    ensures w.sent <= r.sent && |r.sent| == |w.sent| + 512
    ensures forall i :: |w.sent| <= i < |r.sent| ==> r.sent[i].NoteOff?
  {
    w.(sent := w.sent + PanicMessages(), activeNotes := [])
  }

  /** The playheads `startPlayback` installs. */
  const StartPlayheads: map<int, int> := map[1 := 0, 2 := 0, 3 := 0, 4 := 0]

  /** Every count set back to zero, for the same track numbers. */
  function ZeroCounts(accumulators: map<int, int>): (r: map<int, int>)
    ensures r.Keys == accumulators.Keys
    ensures forall k :: k in r ==> r[k] == 0
  {
    map k | k in accumulators :: 0
  }

  /** `startPlayback`: playing, every count and playhead back to zero, and the start message sent. */
  function StartPlayback(w: World): (r: World)
    ensures r.state.isPlaying && r.state.tracks == w.state.tracks && r.state.tempo == w.state.tempo
    ensures r.sent == w.sent + [Start] && r.activeNotes == w.activeNotes && r.pending == w.pending
    ensures r.accumulators.Keys == w.accumulators.Keys
  {
    w.(state := w.state.(isPlaying := true, playheadPositions := StartPlayheads),
       accumulators := ZeroCounts(w.accumulators),
       sent := w.sent + [Start])
  }

  /** `stopPlayback`: stopped, the stop message and then a note-off for every sounding note, which are forgotten. */
  function StopPlayback(w: World): (r: World)
    ensures !r.state.isPlaying && r.state.tracks == w.state.tracks && r.state.tempo == w.state.tempo
    ensures r.activeNotes == [] && r.accumulators == w.accumulators && r.pending == w.pending
    ensures w.sent + [Stop] <= r.sent && |r.sent| == |w.sent| + 1 + |w.activeNotes|
  {
    w.(state := w.state.(isPlaying := false),
       sent := w.sent + [Stop] + NoteOffsFor(w.activeNotes),
       activeNotes := [])
  }

  /** `togglePlayStop`. */
  function TogglePlayStop(w: World): (r: World)
    ensures r.state.isPlaying == !w.state.isPlaying
    ensures r.state.tracks == w.state.tracks && r.state.tempo == w.state.tempo && r.pending == w.pending
    ensures w.sent <= r.sent && |r.sent| == |w.sent| + if w.state.isPlaying then 1 + |w.activeNotes| else 1
  {
    if w.state.isPlaying then StopPlayback(w) else StartPlayback(w)
  }

  /** Stopping switches off every note that was sounding, after the stop message. */
  lemma StopSilences(w: World)
    ensures var r := StopPlayback(w);
      && !r.state.isPlaying && r.activeNotes == []
      && r.sent[|w.sent|] == Stop
      && forall a :: a in w.activeNotes ==> NoteOff(a.channel, a.note) in r.sent[|w.sent| + 1..]
  {
    var r := StopPlayback(w);
    assert r.sent[|w.sent| + 1..] == NoteOffsFor(w.activeNotes);
    forall a | a in w.activeNotes
      ensures NoteOff(a.channel, a.note) in r.sent[|w.sent| + 1..]
    {
      var i :| 0 <= i < |w.activeNotes| && w.activeNotes[i] == a;
      assert NoteOffsFor(w.activeNotes)[i] == NoteOff(a.channel, a.note);
    }
  }

  /** Starting restarts every track from its first step, so the first boundary of every track lies a whole step ahead. */
  lemma StartRestarts(w: World)
    ensures var r := StartPlayback(w);
      && r.state.isPlaying && r.sent == w.sent + [Start]
      && r.accumulators.Keys == w.accumulators.Keys
      && (forall k :: Lookup(r.accumulators, k) == 0)
      && (forall id :: 1 <= id <= 4 ==> id in r.state.playheadPositions && r.state.playheadPositions[id] == 0)
      && r.activeNotes == w.activeNotes
  {
  }

  /** The index of the first track with number `id`, if there is one. */
  function FirstIndex(tracks: seq<Track>, id: int): (r: Option<nat>)
    ensures r.Some? ==>
      (r.value < |tracks| && tracks[r.value].id == id && forall j :: 0 <= j < r.value ==> tracks[j].id != id)
    ensures r.None? ==> forall j :: 0 <= j < |tracks| ==> tracks[j].id != id
  {
    if |tracks| == 0 then None
    else if tracks[0].id == id then Some(0)
    else match FirstIndex(tracks[1..], id)
      case None => None
      case Some(j) => Some(j + 1)
  }

  /** The tracks with the first track numbered `id` muted or unmuted. */
  function ToggledMute(tracks: seq<Track>, id: int): (r: seq<Track>)
    ensures |r| == |tracks|
  {
    match FirstIndex(tracks, id)
    case None => tracks
    case Some(i) => tracks[i := tracks[i].(isMuted := !tracks[i].isMuted)]
  }

  /** Toggling mute flips exactly the selected track's mute flag, and toggling twice restores the tracks. */
  lemma ToggleMuteFlipsSelected(tracks: seq<Track>, id: int)
    ensures var r := ToggledMute(tracks, id);
      forall j :: 0 <= j < |tracks| ==>
        r[j] == if FirstIndex(tracks, id) == Some(j) then tracks[j].(isMuted := !tracks[j].isMuted) else tracks[j]
    ensures ToggledMute(ToggledMute(tracks, id), id) == tracks
  {
    var r := ToggledMute(tracks, id);
    match FirstIndex(tracks, id)
    case None =>
    case Some(i) =>
      assert FirstIndex(r, id) == Some(i) by {
        FirstIndexUnique(r, id, i);
      }
  }

  /** `i` is the first index of `id` when it holds `id` and nothing before it does. */
  lemma {:induction false} FirstIndexUnique(tracks: seq<Track>, id: int, i: nat)
    requires i < |tracks| && tracks[i].id == id && forall j :: 0 <= j < i ==> tracks[j].id != id
    ensures FirstIndex(tracks, id) == Some(i)
  {
    if i > 0 {
      FirstIndexUnique(tracks[1..], id, i - 1);
    }
  }

  /** `toggleMute` on the snapshot. */
  function ToggleMute(w: World): (r: World)
    ensures r.sent == w.sent && r.activeNotes == w.activeNotes && r.accumulators == w.accumulators
    ensures r.pending == w.pending && |r.state.tracks| == |w.state.tracks|
    ensures forall i :: 0 <= i < |w.state.tracks| ==>
      && r.state.tracks[i].id == w.state.tracks[i].id
      && (r.state.tracks[i].isMuted != w.state.tracks[i].isMuted ==> w.state.tracks[i].id == w.state.selectedTrackId)
  {
    w.(state := w.state.(tracks := ToggledMute(w.state.tracks, w.state.selectedTrackId)))
  }

  /** `padPressed`: pads 1 to 4 select their track, 5 starts or stops, 7 mutes the selected track, 8 holds the melodic shift; pad 6 (tap tempo) is not modelled. */
  function PadPressed(w: World, padId: int): (r: World)
    ensures padId != 5 ==> r.sent == w.sent && r.activeNotes == w.activeNotes && r.accumulators == w.accumulators
    ensures padId < 1 || padId > 8 || padId == 6 ==> r == w
    ensures r.state.tempo == w.state.tempo && r.pending == w.pending
  {
    if 1 <= padId <= 4 then w.(state := w.state.(selectedTrackId := padId))
    else if padId == 5 then TogglePlayStop(w)
    else if padId == 7 then ToggleMute(w)
    else if padId == 8 then w.(state := w.state.(isMelodicShiftActive := true))
    else w
  }

  /** `padReleased`: releasing pad 8 ends the melodic shift. */
  function PadReleased(w: World, padId: int): (r: World)
    ensures padId != 8 ==> r == w
    ensures r.state.isMelodicShiftActive == (w.state.isMelodicShiftActive && padId != 8)
  {
    if padId == 8 then w.(state := w.state.(isMelodicShiftActive := false)) else w
  }

  /** The melodic shift lasts exactly while pad 8 is held. */
  lemma ShiftWhileHeld(w: World)
    ensures PadPressed(w, 8).state.isMelodicShiftActive
    ensures PadReleased(PadPressed(w, 8), 8) == w.(state := w.state.(isMelodicShiftActive := false))
  {
  }

  /** Pads 1 to 4 select tracks 1 to 4 and change nothing else. */
  lemma PadSelects(w: World, padId: int)
    requires 1 <= padId <= 4
    ensures PadPressed(w, padId) == w.(state := w.state.(selectedTrackId := padId))
  {
  }

  /** What an input message asks the sequencer to do. */
  datatype InputAction =
    | PressPad(pad: int)
    | ReleasePad(pad: int)
    | TurnKnob(knob: int, value: real)

  /** The channel the pads send on, and their notes. */
  const PadChannel: int := 10
  const FirstPadNote: int := 36
  const LastPadNote: int := 43
  /** The channel the knobs send on, and their controllers. */
  const KnobChannel: int := 1
  const FirstKnobCC: int := 70
  const LastKnobCC: int := 77

  /** `handleMIDIInput`'s dispatch: pad notes on channel 10 press and release pads 1 to 8, controllers 70 to 77 on channel 1 turn knobs 1 to 8 to a value in 0 to 1. */
  function Route(m: MIDIMessage): (r: Option<InputAction>)
    ensures r.Some? && (r.value.PressPad? || r.value.ReleasePad?) ==> 1 <= r.value.pad <= 8
    ensures r.Some? && r.value.TurnKnob? ==> 1 <= r.value.knob <= 8
  {
    match m
    case NoteOn(channel, note, _) =>
      if channel == PadChannel && FirstPadNote <= note <= LastPadNote then Some(PressPad(note - 36 + 1)) else None
    case NoteOff(channel, note) =>
      if channel == PadChannel && FirstPadNote <= note <= LastPadNote then Some(ReleasePad(note - 36 + 1)) else None
    case ControlChange(channel, cc, value) =>
      if channel == KnobChannel && FirstKnobCC <= cc <= LastKnobCC then Some(TurnKnob(cc - 70 + 1, value as real / 127.0))
      else None
    case _ => None
  }

  /** Exactly the pad notes on channel 10 and the knob controllers on channel 1 do something. */
  lemma RouteExactly(m: MIDIMessage)
    ensures Route(m).Some? <==>
      || ((m.NoteOn? || m.NoteOff?) && m.channel == PadChannel && FirstPadNote <= m.note <= LastPadNote)
      || (m.ControlChange? && m.channel == KnobChannel && FirstKnobCC <= m.cc <= LastKnobCC)
    ensures m.NoteOn? && Route(m).Some? ==> Route(m) == Some(PressPad(m.note - 35))
    ensures m.NoteOff? && Route(m).Some? ==> Route(m) == Some(ReleasePad(m.note - 35))
    ensures m.ControlChange? && Route(m).Some? ==> Route(m) == Some(TurnKnob(m.cc - 69, m.value as real / 127.0))
  {
  }

  /** `handleMIDIInput` on the snapshot; knob turns are not modelled. */
  function HandleInput(w: World, m: MIDIMessage): (r: World)
    ensures Route(m).None? ==> r == w
    ensures r.sent != w.sent ==> Route(m) == Some(PressPad(5))
    ensures r.state.tempo == w.state.tempo && r.pending == w.pending
  {
    match Route(m)
    case Some(PressPad(pad)) => PadPressed(w, pad)
    case Some(ReleasePad(pad)) => PadReleased(w, pad)
    case Some(TurnKnob(_, _)) => w
    case None => w
  }
}
