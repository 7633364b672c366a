/**
  Decoding one received 32-bit UMP word into a MIDI message: the status byte
  sits in bits 16 to 23 and the two data bytes below it, each masked to seven
  bits.  The packet walk around it and the CoreMIDI connection are not part
  of this model.
 */
module MIDIInput {
  import opened Wrappers
  import opened MIDIMessages
  import opened MIDIOutput

  /** The status byte of a word. */
  function StatusOf(w: bv32): bv8 {
    ((w >> 16) & 0xFF) as bv8
  }

  /** The first data byte of a word, masked to seven bits. */
  function Data1Of(w: bv32): (d: int)
    ensures 0 <= d < 128
  {
    ((w >> 8) & 0x7F) as int
  }

  /** The second data byte of a word, masked to seven bits. */
  function Data2Of(w: bv32): (d: int)
    ensures 0 <= d < 128
  {
    (w & 0x7F) as int
  }

  /** The four System Real-Time status bytes the sequencer understands. */
  predicate IsRealTime(status: bv8) {
    status == 0xF8 || status == 0xFA || status == 0xFC || status == 0xFB
  }

  /** The message a received word carries, if it is one the sequencer understands. */
  function DecodeWord(w: bv32): (r: Option<MIDIMessage>)
    ensures StatusOf(w) == 0xF8 ==> r == Some(Clock)
    ensures StatusOf(w) == 0xFA ==> r == Some(Start)
    ensures StatusOf(w) == 0xFC ==> r == Some(Stop)
    ensures StatusOf(w) == 0xFB ==> r == Some(Continue)
    ensures r.None? <==>
      !IsRealTime(StatusOf(w)) && StatusOf(w) & 0xF0 !in {0x80, 0x90, 0xB0}
    ensures r.Some? && (r.value.NoteOn? || r.value.NoteOff? || r.value.ControlChange?) ==>
      r.value.channel == (StatusOf(w) & 0x0F) as int + 1 && 1 <= r.value.channel <= 16
    ensures r.Some? && (r.value.NoteOn? || r.value.NoteOff?) ==> r.value.note == Data1Of(w)
    ensures r.Some? && r.value.NoteOn? ==> r.value.velocity == Data2Of(w) && 1 <= r.value.velocity
    ensures r.Some? && r.value.ControlChange? ==>
      r.value.cc == Data1Of(w) && r.value.value == Data2Of(w)
  {
    var statusByte := StatusOf(w);
    if statusByte == 0xF8 then Some(Clock)
    else if statusByte == 0xFA then Some(Start)
    else if statusByte == 0xFC then Some(Stop)
    else if statusByte == 0xFB then Some(Continue)
    else
      var messageType := statusByte & 0xF0;
      var channel := (statusByte & 0x0F) as int + 1;
      var data1 := Data1Of(w);
      var data2 := Data2Of(w);
      if messageType == 0x90 && data2 > 0 then Some(NoteOn(channel, data1, data2))
      else if messageType == 0x90 || messageType == 0x80 then Some(NoteOff(channel, data1))
      else if messageType == 0xB0 then Some(ControlChange(channel, data1, data2))
      else None
  }

  /** Unpacking a three-byte word gives back its status byte and its two data bytes. */
  lemma UnpackThree(b0: bv8, b1: bv8, b2: bv8)
    requires b1 < 0x80 && b2 < 0x80
    ensures var w := PackWord([b0, b1, b2]).value;
      StatusOf(w) == b0 && Data1Of(w) == b1 as int && Data2Of(w) == b2 as int
  {
    PackThree(b0, b1, b2);
    var w := PackWord([b0, b1, b2]).value;
    assert (w >> 8) & 0x7F == ((w >> 8) & 0xFF) & 0x7F;
    assert w & 0x7F == (w & 0xFF) & 0x7F;
  }

  /** Unpacking a one-byte word gives back its status byte. */
  lemma UnpackOne(b0: bv8)
    ensures StatusOf(PackWord([b0]).value) == b0
  {
    PackOne(b0);
  }

  /** A note message sent on any channel is received on that channel taken modulo 16, with note and velocity taken modulo 128; a note-on whose velocity wraps to 0 is received as a note-off. */
  lemma NoteRoundTrip(channel: int, note: int, velocity: int)
    ensures var w := PackWord(Bytes(NoteOn(channel, note, velocity)));
      w.Some? && DecodeWord(w.value) ==
        if velocity % 128 > 0 then Some(NoteOn((channel - 1) % 16 + 1, note % 128, velocity % 128))
        else Some(NoteOff((channel - 1) % 16 + 1, note % 128))
    ensures var w := PackWord(Bytes(NoteOff(channel, note)));
      w.Some? && DecodeWord(w.value) == Some(NoteOff((channel - 1) % 16 + 1, note % 128))
  {
    NoteOnRoundTrip(channel, note, velocity);
    NoteOffRoundTrip(channel, note);
  }

  lemma NoteOnRoundTrip(channel: int, note: int, velocity: int)
    ensures var w := PackWord(Bytes(NoteOn(channel, note, velocity)));
      w.Some? && DecodeWord(w.value) ==
        if velocity % 128 > 0 then Some(NoteOn((channel - 1) % 16 + 1, note % 128, velocity % 128))
        else Some(NoteOff((channel - 1) % 16 + 1, note % 128))
  {
    NoteOnFields(channel, note, velocity);
    assert !IsRealTime(StatusByte(0x90, channel));
  }

  lemma NoteOffRoundTrip(channel: int, note: int)
    ensures var w := PackWord(Bytes(NoteOff(channel, note)));
      w.Some? && DecodeWord(w.value) == Some(NoteOff((channel - 1) % 16 + 1, note % 128))
  {
    NoteOffFields(channel, note);
    assert !IsRealTime(StatusByte(0x80, channel));
  }

  /** The word sent for a note-on carries its status byte and its two data bytes. */
  lemma NoteOnFields(channel: int, note: int, velocity: int)
    ensures var w := PackWord(Bytes(NoteOn(channel, note, velocity)));
      && w.Some? && StatusOf(w.value) == StatusByte(0x90, channel)
      && Data1Of(w.value) == note % 128 && Data2Of(w.value) == velocity % 128
  {
    var status := StatusByte(0x90, channel);
    var on := Bytes(NoteOn(channel, note, velocity));
    assert on == [status, DataByte(note), DataByte(velocity)];
    UnpackThree(status, DataByte(note), DataByte(velocity));
  }

  /** The word sent for a note-off carries its status byte, its note and a zero velocity. */
  lemma NoteOffFields(channel: int, note: int)
    ensures var w := PackWord(Bytes(NoteOff(channel, note)));
      && w.Some? && StatusOf(w.value) == StatusByte(0x80, channel)
      && Data1Of(w.value) == note % 128 && Data2Of(w.value) == 0
  {
    var status := StatusByte(0x80, channel);
    var off := Bytes(NoteOff(channel, note));
    assert off == [status, DataByte(note), 0];
    UnpackThree(status, DataByte(note), 0);
  }

  /** The messages the sequencer can send and receive faithfully. */
  predicate WellFormed(m: MIDIMessage) {
    match m
    case NoteOn(channel, note, velocity) => 1 <= channel <= 16 && 0 <= note < 128 && 1 <= velocity < 128
    case NoteOff(channel, note) => 1 <= channel <= 16 && 0 <= note < 128
    case ControlChange(_, _, _) => false
    case _ => true
  }

  /** Decoding the word that is sent for a well-formed message gives back that message. */
  lemma RoundTrip(m: MIDIMessage)
    requires WellFormed(m)
    ensures PackWord(Bytes(m)).Some? && DecodeWord(PackWord(Bytes(m)).value) == Some(m)
  {
    match m
    case NoteOn(channel, note, velocity) => NoteOnRoundTripInRange(channel, note, velocity);
    case NoteOff(channel, note) => NoteOffRoundTripInRange(channel, note);
    case Clock => UnpackOne(0xF8);
    case Start => UnpackOne(0xFA);
    case Stop => UnpackOne(0xFC);
    case Continue => UnpackOne(0xFB);
  }

  lemma NoteOnRoundTripInRange(channel: int, note: int, velocity: int)
    requires 1 <= channel <= 16 && 0 <= note < 128 && 1 <= velocity < 128
    ensures var w := PackWord(Bytes(NoteOn(channel, note, velocity)));
      w.Some? && DecodeWord(w.value) == Some(NoteOn(channel, note, velocity))
  {
    var w := PackWord(Bytes(NoteOn(channel, note, velocity)));
    NoteOnRoundTrip(channel, note, velocity);
    InRangeWraps(channel, note);
    InRangeWraps(channel, velocity);
    assert DecodeWord(w.value) == Some(NoteOn((channel - 1) % 16 + 1, note % 128, velocity % 128));
  }

  lemma NoteOffRoundTripInRange(channel: int, note: int)
    requires 1 <= channel <= 16 && 0 <= note < 128
    ensures var w := PackWord(Bytes(NoteOff(channel, note)));
      w.Some? && DecodeWord(w.value) == Some(NoteOff(channel, note))
  {
    var w := PackWord(Bytes(NoteOff(channel, note)));
    NoteOffRoundTrip(channel, note);
    InRangeWraps(channel, note);
    assert DecodeWord(w.value) == Some(NoteOff((channel - 1) % 16 + 1, note % 128));
  }

  /** A channel and a note already in range are unchanged by the wrap-around. */
  lemma InRangeWraps(channel: int, note: int)
    requires 1 <= channel <= 16 && 0 <= note < 128
    ensures (channel - 1) % 16 + 1 == channel && note % 128 == note
  {
  }

  /** A real-time status byte decodes the same whatever the data bytes of the word are. */
  lemma RealTimeIgnoresData(w1: bv32, w2: bv32)
    requires StatusOf(w1) == StatusOf(w2) && IsRealTime(StatusOf(w1))
    ensures DecodeWord(w1) == DecodeWord(w2)
  {
  }
}
