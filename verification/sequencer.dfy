/**
  The sequencer view model: the track state, one tick counter per track
  number, the sounding notes, the clock, and the log of messages handed to the
  MIDI output.  Each method is proved against the snapshot function of the
  same name in `SequencerSpec`.
 */
module Sequencer {
  import opened Wrappers
  import opened SwiftInt
  import opened Models
  import opened RepeatEngine
  import opened PhraseEngine
  import opened MIDIEngine
  import opened MIDIMessages
  import opened ClockEngine
  import opened SequencerSpec

  class SequencerViewModel {
    var state: SequencerState
    /** Ticks counted so far in each track number's current step. */
    var accumulators: map<int, int>
    /** The sounding notes, oldest first. */
    var activeNotes: seq<ActiveNote>
    /** The messages handed to the MIDI output, oldest first. */
    var sent: seq<MIDIMessage>
    /** The ratchet repeats handed to delayed dispatch, oldest first. */
    var pending: seq<PendingNote>
    const clock: Clock
    /** The phrase-shape arithmetic. */
    const shapeOffset: ShapeOffset

    /** The clock runs exactly while the sequencer plays, at a positive tempo. */
    predicate Valid()
      reads this, clock
    {
      clock.Valid() && state.tempo > 0 && (clock.isRunning <==> state.isPlaying)
    }

    /** The clock after play was toggled from `wasPlaying`: started afresh at tick 0 at the tempo's interval, or stopped with its tick kept. */
    predicate ToggledClock(wasPlaying: bool, tickBefore: int, deliveredBefore: seq<int>)
      reads this, clock
    {
      && clock.isRunning == !wasPlaying
      && clock.delivered == deliveredBefore
      && (wasPlaying ==> clock.currentTick == tickBefore && clock.timer.None?)
      && (!wasPlaying ==> state.tempo > 0 && clock.currentTick == 0 && clock.timer == Some(TickInterval(state.tempo, PPQ)))
    }

    function Snapshot(): World
      reads this
    {
      World(state, accumulators, activeNotes, sent, pending)
    }

    /** The sequencer at launch: the default state, every count of tracks 1 to 4 at zero, nothing sounding or sent. */
    constructor (shapeOffset: ShapeOffset)
      ensures Valid() && fresh(clock)
      ensures Snapshot() == World(DefaultState, map[1 := 0, 2 := 0, 3 := 0, 4 := 0], [], [], [])
    {
      state := DefaultState;
      accumulators := map[1 := 0, 2 := 0, 3 := 0, 4 := 0];
      activeNotes := [];
      sent := [];
      pending := [];
      clock := new Clock();
      this.shapeOffset := shapeOffset;
    }

    /** `triggerNote`: the first sounding is sent now and registered; later soundings are handed to delayed dispatch. */
    method TriggerNote(track: Track, step: int, tick: int)
      requires Valid()
      modifies this
      ensures Valid()
      ensures Snapshot() == AddTrigger(shapeOffset, old(Snapshot()), track, step, tick)
    {
      var baseNote := 60 + track.melodic.rootNote.RawValue() + track.melodic.transpose;
      var midiNote := ComputeMIDINote(shapeOffset, baseNote, track.melodic, step, track.pattern.steps);
      var ticksPerStep := track.pattern.division.TicksPerStep();
      var sustainTicks := SustainTicks(track);
      var triggers := ComputeRepeats(step, track.repeats, track.pattern.division);
      RepeatsCount(step, track.repeats);
      var repeatSustain := Max(1, SwiftDiv(sustainTicks, |triggers|));
      var interval := TickInterval(state.tempo, clock.ppq);
      AddTriggerParts(shapeOffset, Snapshot(), track, step, tick, midiNote, triggers, ticksPerStep, repeatSustain, interval);
      SoundAll(track.midiChannel, midiNote, track.velocity, interval, triggers, ticksPerStep, tick, repeatSustain);
    }

    /** The loop of `triggerNote` over a pulse's triggers: the first sounds at once and is registered, each later one is handed to delayed dispatch. */
    method SoundAll(channel: int, note: int, velocity: int, interval: int, triggers: seq<Trigger>,
                    ticksPerStep: int, tick: int, repeatSustain: int)
      requires |triggers| > 0
      modifies this
      ensures state == old(state) && accumulators == old(accumulators)
      ensures sent == old(sent) + [NoteOn(channel, note, velocity)]
      ensures activeNotes == old(activeNotes) + [ActiveNote(channel, note, tick + OffsetTicks(triggers[0], ticksPerStep) + repeatSustain)]
      ensures pending == old(pending) + Delayed(channel, note, velocity, interval, triggers, ticksPerStep, tick, repeatSustain)
    {
      ghost var delayed := Delayed(channel, note, velocity, interval, triggers, ticksPerStep, tick, repeatSustain);
      for index := 0 to |triggers|
        invariant state == old(state) && accumulators == old(accumulators)
        invariant index == 0 ==> activeNotes == old(activeNotes) && sent == old(sent) && pending == old(pending)
        invariant index > 0 ==> activeNotes == old(activeNotes) + [ActiveNote(channel, note, tick + OffsetTicks(triggers[0], ticksPerStep) + repeatSustain)]
        invariant index > 0 ==> sent == old(sent) + [NoteOn(channel, note, velocity)]
        invariant index > 0 ==> pending == old(pending) + delayed[..index - 1]
      {
        var offsetTicks := OffsetTicks(triggers[index], ticksPerStep);
        var noteTick := tick + offsetTicks;
        var offTick := noteTick + repeatSustain;
        if index == 0 {
          sent := sent + [NoteOn(channel, note, velocity)];
          activeNotes := activeNotes + [ActiveNote(channel, note, offTick)];
        } else {
          var delayNanos := interval * offsetTicks;
          pending := pending + [PendingNote(channel, note, velocity, delayNanos, offTick)];
          assert delayed[..index] == delayed[..index - 1] + [delayed[index - 1]];
        }
      }
      assert delayed[..|triggers| - 1] == delayed;
    }

    /** `handleTick`: the clock message, a note-off for each note due, then every track's share of the tick, in track order. */
    method HandleTick(tick: int)
      requires Valid() && CanAdvance(state.tracks)
      modifies this
      ensures Valid()
      ensures Snapshot() == Tick(shapeOffset, old(Snapshot()), tick)
    {
      ExpireNotes(tick);
      AdvanceTracks(tick);
    }

    /** The track loop of `handleTick`: every track advanced in order. */
    method AdvanceTracks(tick: int)
      requires Valid() && CanAdvance(state.tracks)
      modifies this
      ensures Valid()
      ensures Snapshot() == AdvanceAll(shapeOffset, old(Snapshot()), old(state.tracks), |old(state.tracks)|, tick)
    {
      ghost var start, tracks := Snapshot(), state.tracks;
      for i := 0 to |state.tracks|
        invariant AdvancedTo(start, tracks, i, tick)
      {
        AdvanceNext(start, tracks, i, tick);
      }
    }

    /** The loop has advanced the first `i` tracks of `tracks` from `start`. */
    ghost predicate AdvancedTo(start: World, tracks: seq<Track>, i: nat, tick: int)
      reads this, clock
    {
      && state.tracks == tracks && Valid() && CanAdvance(tracks) && start.state.tempo > 0 && i <= |tracks|
      && Snapshot() == AdvanceAll(shapeOffset, start, tracks, i, tick)
    }

    /** Advancing the next track of the loop extends the advance of the tracks before it by one. */
    method AdvanceNext(ghost start: World, ghost tracks: seq<Track>, i: nat, tick: int)
      requires AdvancedTo(start, tracks, i, tick) && i < |tracks|
      modifies this
      ensures AdvancedTo(start, tracks, i + 1, tick)
    {
      AdvanceTrack(state.tracks[i], tick);
    }

    /** The first part of `handleTick`: the clock message, then a note-off for each note due, which is dropped. */
    method ExpireNotes(tick: int)
      requires Valid()
      modifies this
      ensures Valid()
      ensures Snapshot() == SequencerSpec.ExpireNotes(old(Snapshot()), tick)
    {
      sent := sent + [Clock];
      var expired := Expired(activeNotes, tick);
      for i := 0 to |expired|
        invariant sent == old(sent) + [Clock] + NoteOffsFor(expired)[..i]
        invariant state == old(state) && accumulators == old(accumulators)
        invariant activeNotes == old(activeNotes) && pending == old(pending)
      {
        sent := sent + [NoteOff(expired[i].channel, expired[i].note)];
        assert NoteOffsFor(expired)[..i + 1] == NoteOffsFor(expired)[..i] + [NoteOffsFor(expired)[i]];
      }
      assert NoteOffsFor(expired)[..|expired|] == NoteOffsFor(expired);
      activeNotes := Kept(activeNotes, tick);
    }

    /** One pass of `handleTick`'s track loop: count the tick; at a step boundary restart the count, move the playhead on, and trigger the step being left if it is a pulse of an unmuted track. */
    method AdvanceTrack(track: Track, tick: int)
      requires Valid() && track.pattern.steps != 0
      modifies this
      ensures Valid()
      ensures Snapshot() == SequencerSpec.AdvanceTrack(shapeOffset, old(Snapshot()), track, tick)
    {
      ghost var w := Snapshot();
      var ticksPerStep := track.pattern.division.TicksPerStep();
      var count := Lookup(accumulators, track.id) + 1;
      accumulators := accumulators[track.id := count];
      if count >= ticksPerStep {
        accumulators := accumulators[track.id := 0];
        assert accumulators == w.accumulators[track.id := 0];
        var currentStep := Lookup(state.playheadPositions, track.id);
        var nextStep := SwiftRem(currentStep + 1, track.pattern.steps);
        state := state.(playheadPositions := state.playheadPositions[track.id := nextStep]);
        ghost var moved := Snapshot();
        assert moved == w.(accumulators := w.accumulators[track.id := 0],
                           state := w.state.(playheadPositions := w.state.playheadPositions[track.id := nextStep]));
        var positions := track.pattern.PulsePositions();
        if currentStep in positions && !track.isMuted {
          TriggerNote(track, currentStep, tick);
          assert Snapshot() == AddTrigger(shapeOffset, moved, track, currentStep, tick);
        }
      }
    }

    /** One firing of the clock, delivered to `handleTick`. */
    method ClockTick()
      requires Valid() && state.isPlaying && CanAdvance(state.tracks)
      modifies this, clock
      ensures Valid() && clock.currentTick == old(clock.currentTick) + 1
      ensures Snapshot() == Tick(shapeOffset, old(Snapshot()), old(clock.currentTick))
    {
      var tick := clock.Fire();
      HandleTick(tick);
    }

    /** `panic`: a note-off for every note of channels 1 to 4, then nothing is sounding. */
    method Panic()
      requires Valid()
      modifies this
      ensures Valid()
      ensures Snapshot() == SequencerSpec.Panic(old(Snapshot()))
    {
      for channel := 1 to PanicChannels + 1
        invariant sent == old(sent) + PanicMessages()[..(channel - 1) * 128]
        invariant state == old(state) && activeNotes == old(activeNotes)
        invariant accumulators == old(accumulators) && pending == old(pending)
      {
        for note := 0 to 128
          invariant sent == old(sent) + PanicMessages()[..(channel - 1) * 128 + note]
          invariant state == old(state) && activeNotes == old(activeNotes)
          invariant accumulators == old(accumulators) && pending == old(pending)
        {
          PanicMessagesStep(channel, note);
          sent := sent + [NoteOff(channel, note)];
        }
      }
      assert PanicMessages()[..PanicChannels * 128] == PanicMessages();
      activeNotes := [];
    }

    /** `startPlayback`: playing, every count and playhead at zero, the start message sent, and the clock started at the tempo. */
    method StartPlayback()
      requires Valid()
      modifies this, clock
      ensures Valid()
      ensures Snapshot() == SequencerSpec.StartPlayback(old(Snapshot()))
      ensures clock.isRunning && clock.delivered == old(clock.delivered)
      ensures old(state.isPlaying) ==> clock.currentTick == old(clock.currentTick) && clock.timer == old(clock.timer)
      ensures !old(state.isPlaying) ==> clock.currentTick == 0 && clock.timer == Some(TickInterval(state.tempo, PPQ))
    {
      state := state.(isPlaying := true);
      accumulators := ZeroCounts(accumulators);
      state := state.(playheadPositions := map[1 := 0, 2 := 0, 3 := 0, 4 := 0]);
      sent := sent + [Start];
      clock.Start(state.tempo);
    }

    /** `stopPlayback`: the clock stopped, the stop message, then a note-off for every sounding note, which are forgotten. */
    method StopPlayback()
      requires Valid()
      modifies this, clock
      ensures Valid() && !clock.isRunning && clock.timer.None?
      ensures clock.currentTick == old(clock.currentTick) && clock.delivered == old(clock.delivered)
      ensures Snapshot() == SequencerSpec.StopPlayback(old(Snapshot()))
    {
      clock.Stop();
      state := state.(isPlaying := false);
      sent := sent + [Stop];
      for i := 0 to |activeNotes|
        invariant activeNotes == old(activeNotes) && pending == old(pending)
        invariant sent == old(sent) + [Stop] + NoteOffsFor(activeNotes)[..i]
        invariant state == old(state).(isPlaying := false) && accumulators == old(accumulators)
        invariant clock.Valid() && !clock.isRunning && clock.timer.None?
        invariant clock.currentTick == old(clock.currentTick) && clock.delivered == old(clock.delivered)
      {
        sent := sent + [NoteOff(activeNotes[i].channel, activeNotes[i].note)];
        assert NoteOffsFor(activeNotes)[..i + 1] == NoteOffsFor(activeNotes)[..i] + [NoteOffsFor(activeNotes)[i]];
      }
      assert NoteOffsFor(activeNotes)[..|activeNotes|] == NoteOffsFor(activeNotes);
      activeNotes := [];
    }

    /** `togglePlayStop`. */
    method TogglePlayStop()
      requires Valid()
      modifies this, clock
      ensures Valid() && ToggledClock(old(state.isPlaying), old(clock.currentTick), old(clock.delivered))
      ensures Snapshot() == SequencerSpec.TogglePlayStop(old(Snapshot()))
    {
      if state.isPlaying {
        StopPlayback();
      } else {
        StartPlayback();
      }
    }

    /** `toggleMute`: the first track numbered as the selected track changes its mute flag. */
    method ToggleMute()
      requires Valid()
      modifies this
      ensures Valid()
      ensures Snapshot() == SequencerSpec.ToggleMute(old(Snapshot()))
    {
      var index := FirstIndex(state.tracks, state.selectedTrackId);
      if index.Some? {
        var i := index.value;
        state := state.(tracks := state.tracks[i := state.tracks[i].(isMuted := !state.tracks[i].isMuted)]);
      }
    }

    /** `padPressed`. */
    method PadPressed(padId: int)
      requires Valid()
      modifies this, clock
      ensures Valid()
      ensures Snapshot() == SequencerSpec.PadPressed(old(Snapshot()), padId)
      ensures padId == 5 ==> ToggledClock(old(state.isPlaying), old(clock.currentTick), old(clock.delivered))
      ensures padId != 5 ==> unchanged(clock)
    {
      if 1 <= padId <= 4 {
        state := state.(selectedTrackId := padId);
      } else if padId == 5 {
        TogglePlayStop();
      } else if padId == 7 {
        ToggleMute();
      } else if padId == 8 {
        state := state.(isMelodicShiftActive := true);
      }
    }

    /** `padReleased`. */
    method PadReleased(padId: int)
      requires Valid()
      modifies this
      ensures Valid()
      ensures Snapshot() == SequencerSpec.PadReleased(old(Snapshot()), padId)
    {
      if padId == 8 {
        state := state.(isMelodicShiftActive := false);
      }
    }

    /** `handleMIDIInput`: pad notes press and release pads; knob turns change nothing here. */
    method HandleMIDIInput(message: MIDIMessage)
      requires Valid()
      modifies this, clock
      ensures Valid()
      ensures Snapshot() == HandleInput(old(Snapshot()), message)
      ensures Route(message) == Some(PressPad(5)) ==>
        ToggledClock(old(state.isPlaying), old(clock.currentTick), old(clock.delivered))
      ensures Route(message) != Some(PressPad(5)) ==> unchanged(clock)
    {
      var action := Route(message);
      if action.Some? {
        match action.value
        case PressPad(pad) => PadPressed(pad);
        case ReleasePad(pad) => PadReleased(pad);
        case TurnKnob(_, _) =>
      }
    }
  }
}
