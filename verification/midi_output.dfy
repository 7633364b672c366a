/**
  The output side of the MIDI link: packing a message's bytes into one 32-bit
  Universal MIDI Packet word (MIDI 2.0 UMP, group 0; message type 0x1 for
  System Real Time, 0x2 for MIDI 1.0 Channel Voice), and the virtual-source
  service that sends such words once it is set up.  The CoreMIDI calls are
  replaced by their status codes, and the words handed to the virtual source
  are kept as a log.
 */
module MIDIOutput {
  import opened Wrappers
  import opened MIDIMessages

  /** The UMP word for a message of one to three bytes; any other length is not sent. */
  function PackWord(bytes: seq<bv8>): (r: Option<bv32>)
    ensures r.Some? <==> 1 <= |bytes| <= 3
  {
    if |bytes| == 1 then
      Some(((bytes[0] as bv32) << 16) | 0x1000_0000)
    else if |bytes| == 2 then
      Some(((((bytes[0] as bv32) << 8) | bytes[1] as bv32) << 8) | 0x2000_0000)
    else if |bytes| == 3 then
      Some(0x2000_0000 | ((bytes[0] as bv32) << 16) | ((bytes[1] as bv32) << 8) | bytes[2] as bv32)
    else
      None
  }

  /** The fields of a one-byte word: message type 1, the byte in bits 16 to 23, nothing below. */
  lemma PackOne(b0: bv8)
    ensures var w := PackWord([b0]).value;
      w >> 28 == 1 && (w >> 16) & 0xFF == b0 as bv32 && w & 0xF00_0000 == 0 && w & 0xFFFF == 0
  {
  }

  /** The fields of a two-byte word: message type 2, the bytes in bits 16 to 23 and 8 to 15, bits 0 to 7 clear. */
  lemma PackTwo(b0: bv8, b1: bv8)
    ensures var w := PackWord([b0, b1]).value;
      && w >> 28 == 2 && w & 0xF00_0000 == 0
      && (w >> 16) & 0xFF == b0 as bv32 && (w >> 8) & 0xFF == b1 as bv32 && w & 0xFF == 0
  {
  }

  /** The fields of a three-byte word: message type 2, the bytes in bits 16 to 23, 8 to 15 and 0 to 7. */
  lemma PackThree(b0: bv8, b1: bv8, b2: bv8)
    ensures var w := PackWord([b0, b1, b2]).value;
      && w >> 28 == 2 && w & 0xF00_0000 == 0
      && (w >> 16) & 0xFF == b0 as bv32 && (w >> 8) & 0xFF == b1 as bv32 && w & 0xFF == b2 as bv32
  {
  }

  /** Every packed word carries the first byte in bits 16 to 23, group 0, and message type 1 for one byte and 2 otherwise. */
  lemma PackedFields(bytes: seq<bv8>)
    requires 1 <= |bytes| <= 3
    ensures var w := PackWord(bytes).value;
      && (w >> 16) & 0xFF == bytes[0] as bv32
      && w & 0xF00_0000 == 0
      && w >> 28 == if |bytes| == 1 then 1 else 2
  {
    if |bytes| == 1 {
      assert bytes == [bytes[0]];
      PackOne(bytes[0]);
    } else if |bytes| == 2 {
      assert bytes == [bytes[0], bytes[1]];
      PackTwo(bytes[0], bytes[1]);
    } else {
      assert bytes == [bytes[0], bytes[1], bytes[2]];
      PackThree(bytes[0], bytes[1], bytes[2]);
    }
  }

  /** Every message the sequencer sends fits one word; a received control change does not. */
  lemma SendableMessages(m: MIDIMessage)
    ensures PackWord(Bytes(m)).Some? <==> !m.ControlChange?
  {
  }

  /** Why setting up the service failed: the CoreMIDI status code of the failing call. */
  datatype MIDIServiceError =
    | ClientCreationFailed(status: int)
    | SourceCreationFailed(status: int)
    | PortCreationFailed(status: int)

  /** CoreMIDI's `noErr`. */
  const NoErr: int := 0

  class MIDIOutputService {
    var isSetup: bool
    /** The words handed to the virtual source, oldest first. */
    var sent: seq<bv32>

    constructor ()
      ensures !isSetup && sent == []
    {
      isSetup := false;
      sent := [];
    }

    /** Creates the client, then the virtual source; the service is set up only when both succeed, and the first failure is reported. */
    method Setup(clientStatus: int, sourceStatus: int) returns (error: Option<MIDIServiceError>)
      modifies this
      ensures clientStatus != NoErr ==>
        error == Some(ClientCreationFailed(clientStatus)) && isSetup == old(isSetup)
      ensures clientStatus == NoErr && sourceStatus != NoErr ==>
        error == Some(SourceCreationFailed(sourceStatus)) && isSetup == old(isSetup)
      ensures clientStatus == NoErr && sourceStatus == NoErr ==> error == None && isSetup
      ensures sent == old(sent)
    {
      if clientStatus != NoErr {
        return Some(ClientCreationFailed(clientStatus));
      }
      if sourceStatus != NoErr {
        return Some(SourceCreationFailed(sourceStatus));
      }
      isSetup := true;
      error := None;
    }

    /** Sends a message as one word, unless the service is not set up or the message has no one-word form. */
    method Send(message: MIDIMessage)
      modifies this
      ensures isSetup == old(isSetup)
      ensures var w := PackWord(Bytes(message));
        sent == if isSetup && w.Some? then old(sent) + [w.value] else old(sent)
    {
      if !isSetup {
        return;
      }
      var word := PackWord(Bytes(message));
      if word.None? {
        return;
      }
      sent := sent + [word.value];
    }

    /** Releases the CoreMIDI resources; nothing is sent afterwards until the next setup. */
    method Teardown()
      modifies this
      ensures !isSetup && sent == old(sent)
    {
      isSetup := false;
    }
  }

  /** Once torn down, the service sends nothing. */
  method TeardownSilences(service: MIDIOutputService, m: MIDIMessage)
    modifies service
    ensures !service.isSetup && service.sent == old(service.sent)
  {
    service.Teardown();
    service.Send(m);
  }
}
