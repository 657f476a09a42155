/** lifx/header.go: the fixed 34-byte protocol header and its builder. */
module LifxHeader {
  import opened Bytes
  import Frames

  /** The encoded size of every header (`size` in the source). */
  const HeaderSize: nat := 34

  const DefaultFrame: Bytes2 := Frames.TAFrame
  const DefaultTarget: Bytes8 := [0, 0, 0, 0, 0, 0, 0, 0]
  const DefaultSequence: byte := 0x00

  /** Message type codes. */
  type MessageType = uint16

  const GetService: MessageType := 2
  const StateService: MessageType := 3
  const GetHostInfo: MessageType := 12
  const StateHostInfo: MessageType := 13
  const GetHostFirmware: MessageType := 14
  const StateHostFirmware: MessageType := 15
  const GetWifiInfo: MessageType := 16
  const StateWifiInfo: MessageType := 17
  const GetWifiFirmware: MessageType := 18
  const StateWifiFirmware: MessageType := 19
  const GetPowerDevice: MessageType := 20
  const SetPowerDevice: MessageType := 21
  const StatePower: MessageType := 22
  const GetLabel: MessageType := 23
  const SetLabel: MessageType := 24
  const StateLabel: MessageType := 25
  const GetVersion: MessageType := 32
  const StateVersion: MessageType := 33
  const GetInfo: MessageType := 34
  const StateInfo: MessageType := 35
  const Acknowledgement: MessageType := 45
  const GetLocation: MessageType := 48
  const SetLocation: MessageType := 49
  const StateLocation: MessageType := 50
  const GetGroup: MessageType := 51
  const SetGroup: MessageType := 52
  const StateGroup: MessageType := 53
  const EchoRequest: MessageType := 58
  const EchoResponse: MessageType := 59
  const Get: MessageType := 101
  const SetColor: MessageType := 102
  const SetWaveform: MessageType := 103
  const GetPowerLight: MessageType := 116
  const SetPowerLight: MessageType := 117

  /** The value held by a Header object. */
  datatype HeaderData = HeaderData(
    frame: Bytes2,
    source: Bytes4,
    target: Bytes8,
    ackRequired: bool,
    resRequired: bool,
    sequence: byte,
    messageType: Bytes2)

  /** What NewHeader builds, for the given process-wide Source. */
  function DefaultHeader(source: Bytes4): HeaderData
  {
    HeaderData(DefaultFrame, source, DefaultTarget, false, false, DefaultSequence, [0x00, 0x00])
  }

  /** decodeAckRes: (ackRequired, resRequired) of a control byte; unknown bytes mean both. */
  function DecodeAckRes(b: byte): (flags: (bool, bool))
    ensures flags.0 <==> b != 0x00 && b != 0x01
    ensures flags.1 <==> b != 0x00 && b != 0x10
  {
    if b == 0x00 then (false, false)
    else if b == 0x01 then (false, true)
    else if b == 0x10 then (true, false)
    else (true, true)
  }

  /** encodeAckResToByte: the control byte, whose decoding gives back both flags. */
  function EncodeAckRes(ackRequired: bool, resRequired: bool): (b: byte)
    ensures b in {0x00, 0x01, 0x10, 0x11}
    ensures DecodeAckRes(b) == (ackRequired, resRequired)
  {
    if !ackRequired && !resRequired then 0x00
    else if !ackRequired && resRequired then 0x01
    else if ackRequired && !resRequired then 0x10
    else 0x11
  }

  /** On the four bytes the encoder produces, encoding inverts decoding. */
  lemma EncodeDecodeAckRes(b: byte)
    requires b in {0x00, 0x01, 0x10, 0x11}
    ensures EncodeAckRes(DecodeAckRes(b).0, DecodeAckRes(b).1) == b
  {
  }

  /** The header layout: what EncodeToBytes produces. */
  function EncodeHeader(h: HeaderData): (r: seq<byte>)
    ensures |r| == HeaderSize
  {
    h.frame + h.source + h.target + Zeros(6)
      + [EncodeAckRes(h.ackRequired, h.resRequired), h.sequence]
      + Zeros(8) + h.messageType + [0x00, 0x00]
  }

  /** Each field sits at its fixed offset and every reserved byte is zero. */
  lemma EncodeHeaderLayout(h: HeaderData)
    ensures var r := EncodeHeader(h);
      && r[0..2] == h.frame && r[2..6] == h.source && r[6..14] == h.target
      && r[20] == EncodeAckRes(h.ackRequired, h.resRequired) && r[21] == h.sequence
      && r[30..32] == h.messageType
      && (forall i | 14 <= i < 20 || 22 <= i < 30 || 32 <= i < 34 :: r[i] == 0)
  {
    var r := EncodeHeader(h);
    var head := h.frame + h.source + h.target;
    assert r == head + Zeros(6) + [EncodeAckRes(h.ackRequired, h.resRequired), h.sequence]
      + Zeros(8) + h.messageType + [0x00, 0x00];
    assert r[0..14] == head;
  }

  /** The inverse of EncodeHeader, reading each field at the offset the encoder uses. */
  function DecodeHeader(b: seq<byte>): HeaderData
    requires |b| == HeaderSize
  {
    var flags := DecodeAckRes(b[20]);
    HeaderData(b[0..2], b[2..6], b[6..14], flags.0, flags.1, b[21], b[30..32])
  }

  /** Header round trip: decoding an encoded header gives it back. */
  lemma DecodeEncodeHeader(h: HeaderData)
    ensures DecodeHeader(EncodeHeader(h)) == h
  {
    EncodeHeaderLayout(h);
  }

  /**
   * A Header object. The setters change one field and return the same
   * object, so that calls can be chained.
   */
  class Header {
    var frame: Bytes2
    var source: Bytes4
    var target: Bytes8
    var ackRequired: bool
    var resRequired: bool
    var sequence: byte
    var messageType: Bytes2

    function Data(): HeaderData
      reads this
    {
      HeaderData(frame, source, target, ackRequired, resRequired, sequence, messageType)
    }

    /** NewHeader, with the process-wide Source passed in. */
    constructor (source: Bytes4)
      ensures Data() == DefaultHeader(source)
    {
      frame := DefaultFrame;
      this.source := source;
      target := DefaultTarget;
      ackRequired := false;
      resRequired := false;
      sequence := DefaultSequence;
      messageType := [0x00, 0x00];
    }

    /** The zero value `Header{}`. */
    constructor Zero()
      ensures Data() == HeaderData([0, 0], [0, 0, 0, 0], DefaultTarget, false, false, 0, [0, 0])
    {
      frame := [0, 0];
      source := [0, 0, 0, 0];
      target := DefaultTarget;
      ackRequired := false;
      resRequired := false;
      sequence := 0;
      messageType := [0, 0];
    }

    method SetFrame(frame: Bytes2) returns (h: Header)
      modifies this
      ensures h == this && Data() == old(Data()).(frame := frame)
    {
      this.frame := frame;
      h := this;
    }

    method SetSource(source: Bytes4) returns (h: Header)
      modifies this
      ensures h == this && Data() == old(Data()).(source := source)
    {
      this.source := source;
      h := this;
    }

    method SetTarget(target: Bytes8) returns (h: Header)
      modifies this
      ensures h == this && Data() == old(Data()).(target := target)
    {
      this.target := target;
      h := this;
    }

    method IsAckRequired(required: bool) returns (h: Header)
      modifies this
      ensures h == this && Data() == old(Data()).(ackRequired := required)
    {
      ackRequired := required;
      h := this;
    }

    method IsResRequired(required: bool) returns (h: Header)
      modifies this
      ensures h == this && Data() == old(Data()).(resRequired := required)
    {
      resRequired := required;
      h := this;
    }

    method SetSequence(sequence: byte) returns (h: Header)
      modifies this
      ensures h == this && Data() == old(Data()).(sequence := sequence)
    {
      this.sequence := sequence;
      h := this;
    }

    /** Stores the type little-endian: low byte first. */
    method SetMessageType(msgType: MessageType) returns (h: Header)
      modifies this
      ensures h == this && Data() == old(Data()).(messageType := [msgType % 0x100, msgType / 0x100])
      ensures Uint16(messageType) == msgType
    {
      var bs := PutUint16(msgType);
      messageType := [bs[0], bs[1]];
      h := this;
    }

    /** getSize. */
    function GetSize(): (n: nat)
      reads this
      ensures n == |EncodeHeader(Data())|
    {
      HeaderSize
    }

    /** EncodeToBytes: the 34 bytes of the header, built by appending field after field. */
    method EncodeToBytes() returns (buffer: seq<byte>)
      ensures buffer == EncodeHeader(Data())
      ensures |buffer| == GetSize()
    {
      buffer := [];
      buffer := buffer + frame;
      buffer := buffer + source;
      buffer := buffer + target;
      ghost var fixed := buffer;
      // 6 reserved bytes
      for i := 0 to 6
        invariant buffer == fixed + Zeros(i)
      {
        buffer := buffer + [0x00];
      }
      buffer := buffer + [EncodeAckRes(ackRequired, resRequired)];
      buffer := buffer + [sequence];
      fixed := buffer;
      // 8 reserved bytes
      for i := 0 to 8
        invariant buffer == fixed + Zeros(i)
      {
        buffer := buffer + [0x00];
      }
      buffer := buffer + messageType;
      // 2 reserved bytes
      buffer := buffer + [0x00, 0x00];
      buffer := buffer[0..34];
    }
  }
}
