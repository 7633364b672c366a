/**
  Turning sequencer state into MIDI messages: the note a pulse step plays, the
  note a melodic configuration makes of a base note, and the matching note-off.
 */
module MIDIEngine {
  import opened Wrappers
  import opened SwiftInt
  import opened Models
  import opened ScaleEngine
  import opened PhraseEngine
  import opened MIDIMessages

  /** The note-on a step plays, or nothing when the step is not a pulse or the track is muted. */
  function NoteForStep(track: Track, step: int, pulsePositions: seq<int>): (r: Option<MIDIMessage>)
    ensures r.None? <==> step !in pulsePositions || track.isMuted
    ensures r.Some? ==> r.value == NoteOn(
      track.midiChannel,
      Clamp(60 + track.melodic.rootNote.RawValue() + track.melodic.transpose, 0, 127),
      track.velocity)
  {
    if step !in pulsePositions || track.isMuted then None
    else
      var baseNote := 60 + track.melodic.rootNote.RawValue() + track.melodic.transpose;
      var midiNote := Max(0, Min(127, baseNote));
      Some(NoteOn(track.midiChannel, midiNote, track.velocity))
  }

  /** `computeMIDINote`: transpose, phrase offset and scale quantization applied to a base note, clamped to MIDI range; without phrase steps only the clamp. */
  function ComputeMIDINote(shapeOffset: ShapeOffset, baseNote: int, config: MelodicConfig, stepInPhrase: int, totalSteps: int): (r: int)
    ensures 0 <= r <= 127
    ensures totalSteps <= 0 ==> r == Clamp(baseNote, 0, 127)
  {
    if totalSteps <= 0 then Max(0, Min(127, baseNote))
    else
      var phraseOffset := PitchOffset(shapeOffset, config.phraseShape, stepInPhrase, totalSteps,
                                      config.phraseRange, config.voicingAmount);
      var note := baseNote + config.transpose + phraseOffset;
      var quantized := Quantize(note, config.scale.Intervals(), config.rootNote);
      Max(0, Min(127, quantized))
  }

  /** With no phrase range or no voicing amount the note is the transposed base note quantized to the scale. */
  lemma ComputeWithoutPhrase(shapeOffset: ShapeOffset, baseNote: int, config: MelodicConfig, stepInPhrase: int, totalSteps: int)
    requires totalSteps > 0 && (config.phraseRange == 0 || config.voicingAmount <= 0.0)
    ensures ComputeMIDINote(shapeOffset, baseNote, config, stepInPhrase, totalSteps)
      == Quantize(baseNote + config.transpose, config.scale.Intervals(), config.rootNote)
  {
  }

  /** The default melodic settings leave every base note as it is, up to the MIDI range. */
  lemma ComputeDefault(shapeOffset: ShapeOffset, baseNote: int, stepInPhrase: int, totalSteps: int)
    ensures ComputeMIDINote(shapeOffset, baseNote, DefaultMelodic, stepInPhrase, totalSteps) == Clamp(baseNote, 0, 127)
  {
    if totalSteps > 0 {
      ComputeWithoutPhrase(shapeOffset, baseNote, DefaultMelodic, stepInPhrase, totalSteps);
      assert baseNote + DefaultMelodic.transpose == baseNote;
      ChromaticIdentity(baseNote);
    }
  }

  /** The note-off for a track's channel, with the note clamped to MIDI range. */
  function NoteOffForTrack(track: Track, note: int): (m: MIDIMessage)
    ensures m.NoteOff? && m.channel == track.midiChannel && 0 <= m.note <= 127
    ensures 0 <= note <= 127 ==> m.note == note
  {
    NoteOff(track.midiChannel, Max(0, Min(127, note)))
  }

  /** The note-off for the note a step plays goes out with the same channel nibble and note byte, under status 8n instead of 9n. */
  lemma NoteOffMatchesNoteOn(track: Track, step: int, pulsePositions: seq<int>)
    requires NoteForStep(track, step, pulsePositions).Some?
    ensures var on := NoteForStep(track, step, pulsePositions).value;
      var off := NoteOffForTrack(track, on.note);
      Bytes(off)[0] as int == Bytes(on)[0] as int - 0x10 && Bytes(off)[1] == Bytes(on)[1]
  {
  }

  /** A default track sounds middle C at velocity 100 on its own channel at a pulse step. */
  lemma DefaultTrackNote(id: int)
    ensures NoteForStep(DefaultTrack(id), 0, [0]) == Some(NoteOn(id, 60, 100))
    ensures NoteForStep(DefaultTrack(id), 1, [0]).None?
  {
  }
}
