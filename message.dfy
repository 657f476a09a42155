/** lifx/message.go: a size-prefixed message, its factories and its codec. */
module LifxMessage {
  import opened Bytes
  import opened Wrappers
  import opened Errors
  import opened LifxHeader
  import opened LifxTypes
  import Frames
  import Tools

  /** The sequence marker every factory sets. */
  const RequestSequence: byte := 0x10

  /** Length of the label field of a SetLabel payload. */
  const LabelSize: nat := 32

  /** The value held by a Message object. */
  datatype MessageData = MessageData(size: Bytes2, header: HeaderData, payload: seq<byte>)

  /** The header every factory builds: type t, response required, sequence 0x10, frame TAFrame. */
  function RequestHeader(source: Bytes4, t: MessageType): (h: HeaderData)
    ensures h.resRequired && !h.ackRequired && h.sequence == RequestSequence
    ensures h.frame == Frames.TAFrame && h.source == source && h.target == DefaultTarget
    ensures Uint16(h.messageType) == t
  {
    DefaultHeader(source).(messageType := PutUint16(t), resRequired := true,
                           sequence := RequestSequence, frame := Frames.TAFrame)
  }

  /** encodeHSBKToBytes: the four fields as little-endian uint16, in order. */
  function EncodeHSBK(c: HSBK): (b: seq<byte>)
    ensures |b| == 8
    ensures Uint16(b[0..2]) == c.hue && Uint16(b[2..4]) == c.saturation
    ensures Uint16(b[4..6]) == c.brightness && Uint16(b[6..8]) == c.kelvin
  {
    PutUint16(c.hue) + PutUint16(c.saturation) + PutUint16(c.brightness) + PutUint16(c.kelvin)
  }

  /** encodeDurationToBytes: a little-endian uint32. */
  function EncodeDuration(duration: uint32): (b: seq<byte>)
    ensures |b| == 4 && Uint32(b) == duration
  {
    PutUint32(duration)
  }

  /** SetColor payload: a reserved zero byte, the colour, then the duration. */
  function ColorPayload(c: HSBK, duration: uint32): (p: seq<byte>)
    ensures |p| == 13 && p[0] == 0x00
    ensures Uint16(p[1..3]) == c.hue && Uint16(p[3..5]) == c.saturation
    ensures Uint16(p[5..7]) == c.brightness && Uint16(p[7..9]) == c.kelvin
    ensures Uint32(p[9..13]) == duration
  {
    var p := [0x00] + EncodeHSBK(c) + EncodeDuration(duration);
    assert p[1..9] == EncodeHSBK(c) && p[9..13] == EncodeDuration(duration);
    assert p[1..9][0..2] == p[1..3] && p[1..9][2..4] == p[3..5];
    assert p[1..9][4..6] == p[5..7] && p[1..9][6..8] == p[7..9];
    p
  }

  /** SetPowerDevice payload: level 65535 for "on" and level 0 for any other string. */
  function PowerPayload(power: Str): (p: seq<byte>)
    ensures |p| == 2
    ensures p == [0xFF, 0xFF] <==> power == PowerOn
    ensures p != [0xFF, 0xFF] ==> p == [0x00, 0x00]
    ensures BigEndianUint16(p) == 65535 <==> power == PowerOn
  {
    if power == PowerOn then [0xFF, 0xFF] else [0x00, 0x00]
  }

  /** SetLabel payload: the label's bytes copied into a zeroed 32-byte field. */
  function LabelPayload(name: Str): (p: seq<byte>)
    ensures |p| == LabelSize
    ensures forall i | 0 <= i < LabelSize && i < |name| :: p[i] == name[i]
    ensures forall i | |name| <= i < LabelSize :: p[i] == 0
  {
    if |name| >= LabelSize then name[..LabelSize] else name + Zeros(LabelSize - |name|)
  }

  /** A label of at most 32 bytes with non-zero end bytes is read back unchanged from its payload. */
  lemma LabelPayloadDecodes(name: Str)
    requires |name| <= LabelSize && Tools.ZeroFreeEnds(name)
    ensures Tools.DecodeToString(LabelPayload(name)) == name
  {
    assert LabelPayload(name) == Zeros(0) + name + Zeros(LabelSize - |name|);
    Tools.DecodeToStringOfPadded(0, name, LabelSize - |name|);
  }

  /** updateSize: 2 + 34 + len(payload), computed in uint16 and so taken mod 65536. */
  function SizePrefix(payloadLength: nat): (b: Bytes2)
    ensures Uint16(b) == (2 + HeaderSize + payloadLength) % 0x1_0000
  {
    PutUint16((2 + HeaderSize + payloadLength % 0x1_0000) % 0x1_0000)
  }

  /** The bytes EncodeToBytes produces: size prefix, header, payload. */
  function EncodeMessage(h: HeaderData, payload: seq<byte>): seq<byte>
  {
    SizePrefix(|payload|) + EncodeHeader(h) + payload
  }

  /** Length and layout of an encoded message. */
  lemma EncodeMessageLayout(h: HeaderData, payload: seq<byte>)
    ensures var r := EncodeMessage(h, payload);
      && |r| == 2 + HeaderSize + |payload|
      && Uint16(r) == (2 + HeaderSize + |payload|) % 0x1_0000
      && r[2..36] == EncodeHeader(h)
      && r[36..] == payload
  {
    var r := EncodeMessage(h, payload);
    assert r[0..2] == SizePrefix(|payload|);
  }

  /** A request without payload, as the refresh sequence sends it, is 36 bytes long. */
  lemma QueryIs36Bytes(source: Bytes4, t: MessageType)
    ensures |EncodeMessage(RequestHeader(source, t), [])| == 36
    ensures Uint16(EncodeMessage(RequestHeader(source, t), [])) == 36
  {
    EncodeMessageLayout(RequestHeader(source, t), []);
  }

  /**
   * The Message that DecodeToMessage builds from bytes: it reads the control
   * byte at offset 16, the sequence at 17 and one byte of the type at 18,
   * and leaves the payload empty.
   */
  function DecodedAsWritten(bytes: seq<byte>): MessageData
    requires |bytes| >= 19
  {
    var flags := DecodeAckRes(bytes[16]);
    MessageData(bytes[0..2],
                HeaderData(bytes[2..4], bytes[4..8], bytes[8..16], flags.0, flags.1, bytes[17], [bytes[18], 0]),
                [])
  }

  /** DecodeToMessage recovers the size, frame, source and target of an encoded message. */
  lemma DecodeToMessageRecoversAddressing(h: HeaderData, payload: seq<byte>)
    ensures var d := DecodedAsWritten(EncodeMessage(h, payload));
      && d.size == SizePrefix(|payload|)
      && d.header.frame == h.frame && d.header.source == h.source && d.header.target == h.target
  {
    EncodeMessageLayout(h, payload);
    EncodeHeaderLayout(h);
    var r := EncodeMessage(h, payload);
    assert r[2..4] == r[2..36][0..2] && r[4..8] == r[2..36][2..6] && r[8..16] == r[2..36][6..14];
  }

  /**
   * For the rest of the header it reads reserved zero bytes: on every encoded
   * message it reports no ack, no response, sequence 0 and type 0, and it
   * drops the payload.
   */
  lemma DecodeToMessageReadsReserved(h: HeaderData, payload: seq<byte>)
    ensures var d := DecodedAsWritten(EncodeMessage(h, payload));
      && !d.header.ackRequired && !d.header.resRequired
      && d.header.sequence == 0 && d.header.messageType == [0, 0]
      && d.payload == []
  {
    EncodeMessageLayout(h, payload);
    EncodeHeaderLayout(h);
    var r := EncodeMessage(h, payload);
    assert r[16] == r[2..36][14] && r[17] == r[2..36][15] && r[18] == r[2..36][16];
  }

  /** Hence DecodeToMessage does not invert EncodeToBytes on any request a factory builds. */
  lemma DecodeToMessageIsNotInverse(source: Bytes4, t: MessageType, payload: seq<byte>)
    ensures DecodedAsWritten(EncodeMessage(RequestHeader(source, t), payload))
            != MessageData(SizePrefix(|payload|), RequestHeader(source, t), payload)
  {
    DecodeToMessageReadsReserved(RequestHeader(source, t), payload);
  }

  /**
   * The decoder as evidently intended: it checks the length, checks the
   * declared size against it, and reads every field where the encoder put it.
   */
  function DecodeMessage(bytes: seq<byte>): (r: Result<MessageData, Error>)
    ensures r.Ok? <==> |bytes| >= 2 + HeaderSize && Uint16(bytes) == |bytes|
    ensures r.Err? ==> r.error == NotValid
  {
    if |bytes| < 2 + HeaderSize || Uint16(bytes) != |bytes| then Err(NotValid)
    else Ok(MessageData(bytes[0..2], DecodeHeader(bytes[2..36]), bytes[36..]))
  }

  /** Message round trip for every message whose length fits the 16-bit size field. */
  lemma DecodeMessageInvertsEncode(h: HeaderData, payload: seq<byte>)
    requires 2 + HeaderSize + |payload| < 0x1_0000
    ensures DecodeMessage(EncodeMessage(h, payload)) == Ok(MessageData(SizePrefix(|payload|), h, payload))
  {
    EncodeMessageLayout(h, payload);
    DecodeEncodeHeader(h);
    assert EncodeMessage(h, payload)[0..2] == SizePrefix(|payload|);
  }

  /** A Message object. Its header is owned and never replaced. */
  class Message {
    var size: Bytes2
    const header: Header
    var payload: seq<byte>

    function Data(): MessageData
      reads this, header
    {
      MessageData(size, header.Data(), payload)
    }

    /** NewMessage, with the process-wide Source passed in. */
    constructor (source: Bytes4)
      ensures fresh(header)
      ensures Data() == MessageData([0x00, 0x00], DefaultHeader(source), [])
    {
      size := [0x00, 0x00];
      header := new Header(source);
      payload := [];
    }

    /** The literal `Message{Header: h}`. */
    constructor WithHeader(h: Header)
      ensures header == h && size == [0x00, 0x00] && payload == []
    {
      size := [0x00, 0x00];
      header := h;
      payload := [];
    }

    method SetPayload(payload: seq<byte>) returns (m: Message)
      modifies this
      ensures m == this && this.payload == payload && size == old(size)
    {
      this.payload := payload;
      m := this;
    }

    /** updateSize: stores the little-endian size and returns it. */
    method UpdateSize() returns (n: int)
      modifies this`size
      ensures n == (2 + HeaderSize + |payload|) % 0x1_0000
      ensures size == SizePrefix(|payload|) && Uint16(size) == n
    {
      var hs := header.GetSize();
      assert hs == HeaderSize;
      var s: uint16 := (2 % 0x1_0000 + hs % 0x1_0000 + |payload| % 0x1_0000) % 0x1_0000;
      assert s == (2 + HeaderSize + |payload| % 0x1_0000) % 0x1_0000;
      var buf := PutUint16(s);
      assert buf == SizePrefix(|payload|);
      size := [buf[0], buf[1]];
      n := s;
    }

    /** EncodeToBytes: recomputes Size, then joins size, header and payload. */
    method EncodeToBytes() returns (result: seq<byte>)
      modifies this`size
      ensures size == SizePrefix(|payload|)
      ensures result == EncodeMessage(header.Data(), payload)
    {
      var _ := UpdateSize();
      result := [] + size;
      var headerBytes := header.EncodeToBytes();
      result := result + headerBytes[0..];
      result := result + payload;
    }
  }

  /** Encoding twice gives the same bytes, since only Size changes and it is recomputed. */
  method EncodeTwice(m: Message) returns (first: seq<byte>, second: seq<byte>)
    modifies m
    ensures first == second
    ensures m.header.Data() == old(m.header.Data()) && m.payload == old(m.payload)
  {
    first := m.EncodeToBytes();
    second := m.EncodeToBytes();
  }

  /** SetColorMessage: a SetColor (102) request carrying the colour and duration. */
  method SetColorMessage(source: Bytes4, hsbk: HSBK, duration: uint32) returns (message: Message)
    ensures fresh(message) && fresh(message.header)
    ensures message.Data() == MessageData([0x00, 0x00], RequestHeader(source, SetColor), ColorPayload(hsbk, duration))
  {
    var hsbkBytes := EncodeHSBK(hsbk);
    var durationBytes := EncodeDuration(duration);
    var payload := [0x00] + hsbkBytes;
    payload := payload + durationBytes;
    var m := new Message(source);
    message := m.SetPayload(payload);
    var h := message.header.SetMessageType(SetColor);
    h := h.IsResRequired(true);
    h := h.SetSequence(RequestSequence);
    h := h.SetFrame(Frames.TAFrame);
  }

  /** GetMessageWithoutPayload: a request of the given type with an empty payload. */
  method GetMessageWithoutPayload(source: Bytes4, msgType: MessageType) returns (message: Message)
    ensures fresh(message) && fresh(message.header)
    ensures message.Data() == MessageData([0x00, 0x00], RequestHeader(source, msgType), [])
  {
    message := new Message(source);
    var h := message.header.SetMessageType(msgType);
    h := h.IsResRequired(true);
    h := h.SetFrame(Frames.TAFrame);
    h := message.header.SetSequence(RequestSequence);
  }

  /** SetPowerDeviceMessage: a SetPowerDevice (21) request. */
  method SetPowerDeviceMessage(source: Bytes4, power: Str) returns (message: Message)
    ensures fresh(message) && fresh(message.header)
    ensures message.Data() == MessageData([0x00, 0x00], RequestHeader(source, SetPowerDevice), PowerPayload(power))
  {
    message := new Message(source);
    var h := message.header.SetMessageType(SetPowerDevice);
    h := h.IsResRequired(true);
    h := h.SetFrame(Frames.TAFrame);
    h := message.header.SetSequence(RequestSequence);
    var m;
    if power == PowerOn {
      m := message.SetPayload([0xFF, 0xFF]);
    } else {
      m := message.SetPayload([0x00, 0x00]);
    }
  }

  /** SetLabelMessage: a SetLabel (24) request. */
  method SetLabelMessage(source: Bytes4, name: Str) returns (message: Message)
    ensures fresh(message) && fresh(message.header)
    ensures message.Data() == MessageData([0x00, 0x00], RequestHeader(source, SetLabel), LabelPayload(name))
  {
    message := new Message(source);
    var h := message.header.SetMessageType(SetLabel);
    h := h.IsResRequired(true);
    h := h.SetFrame(Frames.TAFrame);
    h := message.header.SetSequence(RequestSequence);
    // copy(payload[:], label) into a zeroed [32]byte
    var n := if |name| < LabelSize then |name| else LabelSize;
    var payload := name[..n] + Zeros(LabelSize - n);
    var m := message.SetPayload(payload);
  }

  /** DecodeToMessage: copies fields out of bytes into a new Message, as the source does. */
  method DecodeToMessage(bytes: seq<byte>) returns (m: Message)
    requires |bytes| >= 19
    ensures fresh(m) && fresh(m.header)
    ensures m.Data() == DecodedAsWritten(bytes)
  {
    var h := new Header.Zero();
    m := new Message.WithHeader(h);
    m.size := bytes[0..2];
    h.frame := bytes[2..4];
    h.source := bytes[4..8];
    h.target := bytes[8..16];
    var flags := DecodeAckRes(bytes[16]);
    h.ackRequired, h.resRequired := flags.0, flags.1;
    h.sequence := bytes[17];
    h.messageType := [bytes[18], h.messageType[1]];
    // copy(m.payload, bytes[19:]) copies nothing: m.payload is nil
  }
}
