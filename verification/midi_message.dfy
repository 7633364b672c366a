/**
  MIDI 1.0 messages and their wire bytes: Channel Voice note-on (status 9n)
  and note-off (8n), and the System Real-Time messages timing clock (F8),
  start (FA), continue (FB) and stop (FC).  Channels are numbered 1 to 16 and
  sent as the low nibble `channel - 1`, wrapping modulo 16 as the
  `& 0x0F` of `MIDIMessage.bytes` does on two's-complement integers.
 */
module MIDIMessages {
  /** A MIDI message.  `ControlChange` is received but never sent, so it has no byte encoding. */
  datatype MIDIMessage =
    | NoteOn(channel: int, note: int, velocity: int)
    | NoteOff(channel: int, note: int)
    | Clock
    | Start
    | Stop
    | Continue
    | ControlChange(channel: int, cc: int, value: int)

  /** A status byte: the message-kind nibble `kind` (0x80 or 0x90) or'ed with the channel nibble. */
  function StatusByte(kind: bv8, channel: int): (b: bv8)
    requires kind == 0x80 || kind == 0x90
    ensures b as int == kind as int + (channel - 1) % 16
    ensures b & 0xF0 == kind && (b & 0x0F) as int == (channel - 1) % 16
  {
    var nibble := Nibble((channel - 1) % 16);
    NibbleOr(kind, nibble);
    kind | nibble
  }

  /** Or'ing a high nibble with a low nibble adds them, and the two can be masked apart again. */
  lemma NibbleOr(kind: bv8, nibble: bv8)
    requires kind == 0x80 || kind == 0x90
    requires nibble < 16
    ensures (kind | nibble) as int == kind as int + nibble as int
    ensures (kind | nibble) & 0xF0 == kind && (kind | nibble) & 0x0F == nibble
  {
  }

  /** A value below 16 as a byte. */
  function Nibble(v: int): (b: bv8)
    requires 0 <= v < 16
    ensures b as int == v && b < 16
  {
    v as bv8
  }

  /** Two nibbles side by side make the byte `16 * hi + lo`. */
  lemma NibblesJoin(hi: bv8, lo: bv8)
    requires hi < 16 && lo < 16
    ensures ((hi << 4) | lo) as int == hi as int * 16 + lo as int
  {
  }

  /** A value below 256 as a byte (Swift's `UInt8(_:)` on an in-range value), assembled from its two nibbles. */
  function ByteOf(v: int): (b: bv8)
    requires 0 <= v < 256
    ensures b as int == v
  {
    var hi := Nibble(v / 16);
    var lo := Nibble(v % 16);
    NibblesJoin(hi, lo);
    (hi << 4) | lo
  }

  /** The low seven bits of `x`, as `UInt8(x & 0x7F)` on a two's-complement integer. */
  function DataByte(x: int): (b: bv8)
    ensures b as int == x % 128
  {
    ByteOf(x % 128)
  }

  /** The bytes sent on the wire for a message. */
  function Bytes(m: MIDIMessage): (r: seq<bv8>)
    ensures m.NoteOn? ==>
      (|r| == 3 && r[0] as int == 0x90 + (m.channel - 1) % 16
       && r[1] as int == m.note % 128 && r[2] as int == m.velocity % 128)
    ensures m.NoteOff? ==>
      (|r| == 3 && r[0] as int == 0x80 + (m.channel - 1) % 16
       && r[1] as int == m.note % 128 && r[2] == 0)
    ensures m.Clock? ==> r == [0xF8]
    ensures m.Start? ==> r == [0xFA]
    ensures m.Stop? ==> r == [0xFC]
    ensures m.Continue? ==> r == [0xFB]
    ensures m.ControlChange? ==> r == []
  {
    match m
    case NoteOn(channel, note, velocity) => [StatusByte(0x90, channel), DataByte(note), DataByte(velocity)]
    case NoteOff(channel, note) => [StatusByte(0x80, channel), DataByte(note), 0]
    case Clock => [0xF8]
    case Start => [0xFA]
    case Stop => [0xFC]
    case Continue => [0xFB]
    case ControlChange(_, _, _) => []
  }

  /** Every encoded message starts with a status byte (top bit set) followed only by data bytes (top bit clear); note messages take three bytes and real-time messages one. */
  lemma StatusThenData(m: MIDIMessage)
    ensures var r := Bytes(m);
      && (m.NoteOn? || m.NoteOff? ==> |r| == 3)
      && (m.Clock? || m.Start? || m.Stop? || m.Continue? ==> |r| == 1)
      && (|r| > 0 ==> r[0] >= 0x80)
      && forall i :: 1 <= i < |r| ==> r[i] < 0x80
  {
  }

  /** For channels 1 to 16 the status byte is the kind plus `channel - 1`. */
  lemma ChannelStatus(channel: int, note: int, velocity: int)
    requires 1 <= channel <= 16
    ensures Bytes(NoteOn(channel, note, velocity))[0] as int == 0x90 + channel - 1
    ensures Bytes(NoteOff(channel, note))[0] as int == 0x80 + channel - 1
  {
    assert (channel - 1) % 16 == channel - 1;
  }

  /** Channels wrap modulo 16: `c` and `c + 16` are the same on the wire. */
  lemma ChannelWraps(channel: int, note: int, velocity: int)
    ensures Bytes(NoteOn(channel, note, velocity)) == Bytes(NoteOn(channel + 16, note, velocity))
    ensures Bytes(NoteOff(channel, note)) == Bytes(NoteOff(channel + 16, note))
  {
    assert (channel + 16 - 1) % 16 == (channel - 1) % 16;
    assert StatusByte(0x90, channel) as int == StatusByte(0x90, channel + 16) as int;
    assert StatusByte(0x80, channel) as int == StatusByte(0x80, channel + 16) as int;
  }

  /** Channel 0 wraps to the last channel nibble 0xF. */
  lemma ChannelZero(note: int, velocity: int)
    ensures Bytes(NoteOn(0, note, velocity))[0] == 0x9F
    ensures Bytes(NoteOff(0, note))[0] == 0x8F
  {
  }

  /** Middle C at velocity 100 on channel 1, switched on and off. */
  lemma MiddleC()
    ensures Bytes(NoteOn(1, 60, 100)) == [0x90, 60, 100]
    ensures Bytes(NoteOff(1, 60)) == [0x80, 60, 0]
  {
    MiddleCOn();
    MiddleCOff();
  }

  lemma MiddleCOn()
    ensures Bytes(NoteOn(1, 60, 100)) == [0x90, 60, 100]
  {
    var s, n, v := StatusByte(0x90, 1), DataByte(60), DataByte(100);
    assert s == 0x90 && n == 60 && v == 100;
  }

  lemma MiddleCOff()
    ensures Bytes(NoteOff(1, 60)) == [0x80, 60, 0]
  {
    var s, n := StatusByte(0x80, 1), DataByte(60);
    assert s == 0x80 && n == 60;
  }
}
