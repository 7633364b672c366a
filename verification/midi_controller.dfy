/**
  Decoding one received UMP word from the pad-and-knob controller (an LPD8 in
  its default program): pads 1 to 8 are notes 36 to 43, knobs 1 to 8 are
  controllers 1 to 8.  Only the message-type nibble of the status byte is
  looked at, so the controller may send on any channel.
 */
module MIDIController {
  import opened Wrappers
  import opened MIDIMessages
  import opened MIDIOutput
  import opened MIDIInput

  /** What a controller word asks for. */
  datatype ControllerEvent =
    | PadPress(pad: int, velocity: int)
    | PadRelease(pad: int)
    | KnobChange(cc: int, value: int)

  const FirstPadNote: int := 36
  const LastPadNote: int := 43
  const FirstKnobCC: int := 1
  const LastKnobCC: int := 8

  /** The controller event a word carries, if any. */
  function DecodeControllerWord(w: bv32): (r: Option<ControllerEvent>)
    ensures r.Some? && r.value.PadPress? ==> 1 <= r.value.pad <= 8 && 1 <= r.value.velocity < 128
    ensures r.Some? && r.value.PadRelease? ==> 1 <= r.value.pad <= 8
    ensures r.Some? && r.value.KnobChange? ==> FirstKnobCC <= r.value.cc <= LastKnobCC && 0 <= r.value.value < 128
  {
    var statusByte := StatusOf(w);
    var data1 := Data1Of(w);
    var data2 := Data2Of(w);
    var messageType := statusByte & 0xF0;
    if messageType == 0x90 && data2 > 0 then
      if FirstPadNote <= data1 <= LastPadNote then Some(PadPress(data1 - 36 + 1, data2)) else None
    else if messageType == 0x90 || messageType == 0x80 then
      if FirstPadNote <= data1 <= LastPadNote then Some(PadRelease(data1 - 36 + 1)) else None
    else if messageType == 0xB0 then
      if FirstKnobCC <= data1 <= LastKnobCC then Some(KnobChange(data1, data2)) else None
    else
      None
  }

  /** A pad press is exactly a note-on with non-zero velocity on a pad note, on any channel. */
  lemma PadPressExactly(w: bv32, pad: int, velocity: int)
    ensures DecodeControllerWord(w) == Some(PadPress(pad, velocity)) <==>
      && StatusOf(w) & 0xF0 == 0x90 && Data2Of(w) > 0
      && FirstPadNote <= Data1Of(w) <= LastPadNote
      && pad == Data1Of(w) - 35 && velocity == Data2Of(w)
  {
  }

  /** A pad release is exactly a note-off, or a note-on with velocity 0, on a pad note. */
  lemma PadReleaseExactly(w: bv32, pad: int)
    ensures DecodeControllerWord(w) == Some(PadRelease(pad)) <==>
      && (StatusOf(w) & 0xF0 == 0x80 || (StatusOf(w) & 0xF0 == 0x90 && Data2Of(w) == 0))
      && FirstPadNote <= Data1Of(w) <= LastPadNote
      && pad == Data1Of(w) - 35
  {
  }

  /** A knob change is exactly a control change of controllers 1 to 8, with the raw controller number. */
  lemma KnobChangeExactly(w: bv32, cc: int, value: int)
    ensures DecodeControllerWord(w) == Some(KnobChange(cc, value)) <==>
      && StatusOf(w) & 0xF0 == 0xB0
      && FirstKnobCC <= Data1Of(w) <= LastKnobCC
      && cc == Data1Of(w) && value == Data2Of(w)
  {
  }

  /** The channel nibble is ignored: words that differ only there decode alike. */
  lemma ChannelIgnored(w1: bv32, w2: bv32)
    requires StatusOf(w1) & 0xF0 == StatusOf(w2) & 0xF0
    requires Data1Of(w1) == Data1Of(w2) && Data2Of(w1) == Data2Of(w2)
    ensures DecodeControllerWord(w1) == DecodeControllerWord(w2)
  {
  }

  /** A pad note struck on any channel, as the sequencer itself would encode it, is read as that pad's press. */
  lemma PadFromNoteOn(channel: int, note: int, velocity: int)
    requires FirstPadNote <= note <= LastPadNote && 1 <= velocity < 128
    ensures var w := PackWord(Bytes(NoteOn(channel, note, velocity)));
      w.Some? && DecodeControllerWord(w.value) == Some(PadPress(note - 35, velocity))
  {
    var w := PackWord(Bytes(NoteOn(channel, note, velocity))).value;
    NoteOnFields(channel, note, velocity);
    PadFromFields(w, channel, note, velocity);
  }

  /** A word whose fields are those of a pad note-on decodes as that pad's press. */
  lemma PadFromFields(w: bv32, channel: int, note: int, velocity: int)
    requires FirstPadNote <= note <= LastPadNote && 1 <= velocity < 128
    requires StatusOf(w) == StatusByte(0x90, channel) && Data1Of(w) == note % 128 && Data2Of(w) == velocity % 128
    ensures DecodeControllerWord(w) == Some(PadPress(note - 35, velocity))
  {
    assert StatusOf(w) & 0xF0 == 0x90;
    PadPressExactly(w, note - 35, velocity);
  }
}
