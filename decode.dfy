/**
 * lifx/lifx.go: the decoders of device replies. Each slices its fields at
 * fixed offsets counted back from the end of the reply; the source never
 * checks the length, so each length it relies on is a precondition here.
 */
module LifxDecode {
  import opened Bytes
  import opened Wrappers
  import opened Errors
  import opened LifxTypes
  import opened LifxMessage
  import Tools

  /** Shortest replies the decoders can slice. */
  const StateSize: nat := 52
  const GroupSize: nat := 56
  const InfoSize: nat := 24
  const VersionSize: nat := 8

  /** DecodeToHSBK: exactly 8 bytes, four little-endian uint16 in order. */
  function DecodeToHSBK(bytes: seq<byte>): (r: Result<HSBK, Error>)
    ensures r.Ok? <==> |bytes| == 8
    ensures r.Err? ==> r.error == NotValid
    ensures r.Ok? ==> EncodeHSBK(r.value) == bytes
  {
    if |bytes| != 8 then Err(NotValid)
    else
      var c := HSBK(Uint16(bytes[0..2]), Uint16(bytes[2..4]), Uint16(bytes[4..6]), Uint16(bytes[6..8]));
      PutUint16OfUint16(bytes[0..2]);
      PutUint16OfUint16(bytes[2..4]);
      PutUint16OfUint16(bytes[4..6]);
      PutUint16OfUint16(bytes[6..8]);
      assert bytes == bytes[0..2] + bytes[2..4] + bytes[4..6] + bytes[6..8];
      Ok(c)
  }

  /** DecodeToHSBK inverts encodeHSBKToBytes. */
  lemma DecodeEncodeHSBK(c: HSBK)
    ensures DecodeToHSBK(EncodeHSBK(c)) == Ok(c)
  {
  }

  /**
   * DecodeToState: colour from [n-52, n-44), power from [n-42, n-40) and the
   * NUL-trimmed label from [n-40, n-8). It cannot fail once the length holds.
   */
  function DecodeToState(bytes: seq<byte>): (r: Result<State, Error>)
    requires |bytes| >= StateSize
    ensures r.Ok? && r.value.hsbk.Some?
    ensures EncodeHSBK(r.value.hsbk.value) == bytes[|bytes| - 52..|bytes| - 44]
    ensures r.value.power == PowerOn <==> bytes[|bytes| - 42] == 0xFF && bytes[|bytes| - 41] == 0xFF
    ensures r.value.power == PowerOn || r.value.power == PowerOff
    ensures r.value.name == Tools.DecodeToString(bytes[|bytes| - 40..|bytes| - 8])
  {
    var size := |bytes|;
    match DecodeToHSBK(bytes[size - 52..size - 44])
    case Err(e) => Err(e)
    case Ok(hsbk) =>
      var name := Tools.DecodeToString(bytes[size - 40..size - 8]);
      var power := if BigEndianUint16(bytes[size - 42..size - 40]) == 65535 then PowerOn else PowerOff;
      Ok(State(Some(hsbk), power, name))
  }

  /** DecodeToGroup: the 16-byte id from [n-56, n-40) and the label from [n-40, n-8). */
  function DecodeToGroup(bytes: seq<byte>): (g: Group)
    requires |bytes| >= GroupSize
    ensures g.id == bytes[|bytes| - 56..|bytes| - 40]
    ensures |g.name| <= LabelSize && Tools.ZeroFreeEnds(g.name)
  {
    var size := |bytes|;
    Group(bytes[size - 56..size - 40], Tools.DecodeToString(bytes[size - 40..size - 8]))
  }

  /** DecodeToLocation: the same layout as DecodeToGroup. */
  function DecodeToLocation(bytes: seq<byte>): (l: Location)
    requires |bytes| >= GroupSize
    ensures l.id == bytes[|bytes| - 56..|bytes| - 40]
    ensures |l.name| <= LabelSize && Tools.ZeroFreeEnds(l.name)
  {
    var size := |bytes|;
    Location(bytes[size - 56..size - 40], Tools.DecodeToString(bytes[size - 40..size - 8]))
  }

  /** DecodeToInfo: the first two bytes of each 8-byte window at n-24, n-16 and n-8. */
  function DecodeToInfo(bytes: seq<byte>): (info: Info)
    requires |bytes| >= InfoSize
    ensures var n := |bytes|;
            && info.time == bytes[n - 24] as int + 0x100 * bytes[n - 23] as int
            && info.upTime == bytes[n - 16] as int + 0x100 * bytes[n - 15] as int
            && info.downTime == bytes[n - 8] as int + 0x100 * bytes[n - 7] as int
  {
    var size := |bytes|;
    Info(Uint16(bytes[size - 24..size - 16]), Uint16(bytes[size - 16..size - 8]), Uint16(bytes[size - 8..size]))
  }

  /** DecodeToProduct: the product id at [n-8, n-4) looked up in the table; no entry gives nil. */
  function DecodeToProduct(bytes: seq<byte>, products: map<uint32, Product>): (p: Option<Product>)
    requires |bytes| >= VersionSize
    ensures p.Some? <==> Uint32(bytes[|bytes| - 8..]) in products
    ensures p.Some? ==> p.value == products[Uint32(bytes[|bytes| - 8..])]
  {
    var size := |bytes|;
    var id := Uint32(bytes[size - 8..size - 4]);
    if id in products then Some(products[id]) else None
  }

  // Reference layouts of the reply payloads, as the LIFX LAN protocol defines
  // them; the lemmas below say what each decoder recovers from a reply that
  // ends with such a payload, whatever precedes it.

  /** State (107): colour, 2 reserved bytes, power level, 32-byte label, 8 reserved bytes. */
  function StatePayload(c: HSBK, reserved: Bytes2, level: uint16, name: seq<byte>, tail: Bytes8): seq<byte>
    requires |name| == LabelSize
  {
    EncodeHSBK(c) + reserved + PutUint16(level) + name + tail
  }

  /** StateGroup (53) and StateLocation (50): 16-byte id, 32-byte label, uint64 timestamp. */
  function NamedIdPayload(id: Bytes16, name: seq<byte>, updatedAt: uint64): seq<byte>
    requires |name| == LabelSize
  {
    id + name + PutUint64(updatedAt)
  }

  /** StateInfo (35): time, uptime and downtime as uint64. */
  function InfoPayload(time: uint64, upTime: uint64, downTime: uint64): seq<byte>
  {
    PutUint64(time) + PutUint64(upTime) + PutUint64(downTime)
  }

  /** StateVersion (33): vendor, product and version as uint32. */
  function VersionPayload(vendor: uint32, product: uint32, version: uint32): seq<byte>
  {
    PutUint32(vendor) + PutUint32(product) + PutUint32(version)
  }

  /** A State reply gives back its colour, "on" exactly for level 65535, and its trimmed label. */
  lemma DecodeStateReply(prefix: seq<byte>, c: HSBK, reserved: Bytes2, level: uint16, name: seq<byte>, tail: Bytes8)
    requires |name| == LabelSize
    ensures DecodeToState(prefix + StatePayload(c, reserved, level, name, tail))
            == Ok(State(Some(c), if level == 65535 then PowerOn else PowerOff, Tools.DecodeToString(name)))
  {
    var b := prefix + StatePayload(c, reserved, level, name, tail);
    var n := |b|;
    assert b[n - 52..n - 44] == EncodeHSBK(c);
    assert b[n - 42..n - 40] == PutUint16(level);
    assert b[n - 40..n - 8] == name;
    var r := DecodeToState(b);
    DecodeEncodeHSBK(c);
    assert r.value.hsbk == Some(c) by {
      assert DecodeToHSBK(EncodeHSBK(r.value.hsbk.value)) == Ok(r.value.hsbk.value);
    }
    assert (level == 65535) <==> (PutUint16(level) == [0xFF, 0xFF]);
  }

  /** A StateGroup reply gives back its id and its trimmed label. */
  lemma DecodeGroupReply(prefix: seq<byte>, id: Bytes16, name: seq<byte>, updatedAt: uint64)
    requires |name| == LabelSize
    ensures DecodeToGroup(prefix + NamedIdPayload(id, name, updatedAt)) == Group(id, Tools.DecodeToString(name))
  {
    var b := prefix + NamedIdPayload(id, name, updatedAt);
    var n := |b|;
    assert b[n - 56..n - 40] == id;
    assert b[n - 40..n - 8] == name;
  }

  /** A StateLocation reply gives back its id and its trimmed label. */
  lemma DecodeLocationReply(prefix: seq<byte>, id: Bytes16, name: seq<byte>, updatedAt: uint64)
    requires |name| == LabelSize
    ensures DecodeToLocation(prefix + NamedIdPayload(id, name, updatedAt)) == Location(id, Tools.DecodeToString(name))
  {
    var b := prefix + NamedIdPayload(id, name, updatedAt);
    var n := |b|;
    assert b[n - 56..n - 40] == id;
    assert b[n - 40..n - 8] == name;
  }

  /** A StateInfo reply gives only the low 16 bits of each 64-bit statistic. */
  lemma DecodeInfoReply(prefix: seq<byte>, time: uint64, upTime: uint64, downTime: uint64)
    ensures DecodeToInfo(prefix + InfoPayload(time, upTime, downTime))
            == Info(time % 0x1_0000, upTime % 0x1_0000, downTime % 0x1_0000)
  {
    var b := prefix + InfoPayload(time, upTime, downTime);
    var n := |b|;
    assert b[n - 24..n - 16] == PutUint64(time);
    assert b[n - 16..n - 8] == PutUint64(upTime);
    assert b[n - 8..n] == PutUint64(downTime);
    Uint16OfPutUint64(time);
    Uint16OfPutUint64(upTime);
    Uint16OfPutUint64(downTime);
  }

  /** A StateVersion reply is looked up by its product id; an unknown id gives no product. */
  lemma DecodeVersionReply(prefix: seq<byte>, vendor: uint32, product: uint32, version: uint32, products: map<uint32, Product>)
    ensures DecodeToProduct(prefix + VersionPayload(vendor, product, version), products)
            == (if product in products then Some(products[product]) else None)
  {
    var b := prefix + VersionPayload(vendor, product, version);
    var n := |b|;
    assert b[n - 8..n - 4] == PutUint32(product);
  }
}
