/**
 * Go's fixed-width integers and byte strings, and the little-endian
 * conversions of encoding/binary that the protocol code uses.
 */
module Bytes {

  type byte = x: int | 0 <= x < 0x100
  type uint16 = x: int | 0 <= x < 0x1_0000
  type uint32 = x: int | 0 <= x < 0x1_0000_0000
  type uint64 = x: int | 0 <= x < 0x1_0000_0000_0000_0000

  /** A Go string: an immutable sequence of bytes. */
  type Str = seq<byte>

  /** Go arrays [2]byte, [4]byte, [8]byte and [16]byte. */
  type Bytes2 = s: seq<byte> | |s| == 2 witness [0, 0]
  type Bytes4 = s: seq<byte> | |s| == 4 witness [0, 0, 0, 0]
  type Bytes8 = s: seq<byte> | |s| == 8 witness [0, 0, 0, 0, 0, 0, 0, 0]
  type Bytes16 = s: seq<byte> | |s| == 16 witness [0, 0, 0, 0, 0, 0, 0, 0, 0, 0, 0, 0, 0, 0, 0, 0]

  /** A run of n zero bytes. */
  function Zeros(n: nat): (z: seq<byte>)
    ensures |z| == n && forall i | 0 <= i < n :: z[i] == 0
  {
    seq(n, _ => 0)
  }

  /** binary.LittleEndian.Uint16: the value of the first two bytes, low byte first. */
  function Uint16(b: seq<byte>): uint16
    requires |b| >= 2
  {
    b[0] as int + 0x100 * b[1] as int
  }

  /** binary.BigEndian.Uint16: the value of the first two bytes, high byte first. */
  function BigEndianUint16(b: seq<byte>): uint16
    requires |b| >= 2
  {
    0x100 * b[0] as int + b[1] as int
  }

  /** binary.LittleEndian.PutUint16. */
  function PutUint16(v: uint16): (b: Bytes2)
    ensures Uint16(b) == v
  {
    [v % 0x100, v / 0x100]
  }

  /** binary.LittleEndian.Uint32: the value of the first four bytes, low byte first. */
  function Uint32(b: seq<byte>): uint32
    requires |b| >= 4
  {
    b[0] as int + 0x100 * b[1] as int + 0x1_0000 * b[2] as int + 0x100_0000 * b[3] as int
  }

  /** binary.LittleEndian.PutUint32. */
  function PutUint32(v: uint32): (b: Bytes4)
    ensures Uint32(b) == v
  {
    [v % 0x100, v / 0x100 % 0x100, v / 0x1_0000 % 0x100, v / 0x100_0000]
  }

  /** binary.LittleEndian.PutUint64, as two 32-bit halves, low half first. */
  function PutUint64(v: uint64): (b: Bytes8)
  {
    PutUint32(v % 0x1_0000_0000) + PutUint32(v / 0x1_0000_0000)
  }

  /** Two bytes are determined by their little-endian value. */
  lemma PutUint16OfUint16(b: seq<byte>)
    requires |b| == 2
    ensures PutUint16(Uint16(b)) == b
  {
  }

  /** Division by m splits a + m * q back into q and a. */
  lemma DivModOf(a: int, q: int, m: int)
    requires m == 0x100 || m == 0x1_0000 || m == 0x100_0000
    requires 0 <= a < m
    ensures (a + m * q) / m == q && (a + m * q) % m == a
  {
    if m == 0x100 {
      assert a + m * q == a + 0x100 * q;
    } else if m == 0x1_0000 {
      assert a + m * q == a + 0x1_0000 * q;
    } else {
      assert a + m * q == a + 0x100_0000 * q;
    }
  }

  /** The low two bytes of x, read back, are x modulo 2^16. */
  lemma LowTwoBytes(x: nat)
    ensures x % 0x100 + 0x100 * (x / 0x100 % 0x100) == x % 0x1_0000
  {
    var a, b := x % 0x100, x / 0x100;
    assert x == a + 0x100 * (b % 0x100) + 0x1_0000 * (b / 0x100);
    DivModOf(a + 0x100 * (b % 0x100), b / 0x100, 0x1_0000);
  }

  /** Reducing modulo 2^32 first does not change the value modulo 2^16. */
  lemma ModLow16(v: nat)
    ensures v % 0x1_0000_0000 % 0x1_0000 == v % 0x1_0000
  {
    var q, lo := v / 0x1_0000_0000, v % 0x1_0000_0000;
    var q2, r := lo / 0x1_0000, lo % 0x1_0000;
    assert v == r + 0x1_0000 * (0x1_0000 * q + q2);
    DivModOf(r, 0x1_0000 * q + q2, 0x1_0000);
  }

  /** The first two bytes of a little-endian uint64 hold its low 16 bits. */
  lemma Uint16OfPutUint64(v: uint64)
    ensures Uint16(PutUint64(v)) == v % 0x1_0000
  {
    var lo := v % 0x1_0000_0000;
    assert PutUint64(v)[..2] == PutUint32(lo)[..2];
    LowTwoBytes(lo);
    ModLow16(v);
  }
}
