/** tools/tools.go: turning a NUL-padded byte field into a string. */
module Tools {
  import opened Bytes

  /** Length of the run of zero bytes that starts b. */
  function LeadingZeros(b: seq<byte>): (n: nat)
    ensures n <= |b|
    ensures forall i | 0 <= i < n :: b[i] == 0
    ensures n < |b| ==> b[n] != 0
  {
    if |b| == 0 || b[0] != 0 then 0 else 1 + LeadingZeros(b[1..])
  }

  /** Length of the run of zero bytes that ends b. */
  function TrailingZeros(b: seq<byte>): (n: nat)
    ensures n <= |b|
    ensures forall i | |b| - n <= i < |b| :: b[i] == 0
    ensures n < |b| ==> b[|b| - 1 - n] != 0
  {
    if |b| == 0 || b[|b| - 1] != 0 then 0 else 1 + TrailingZeros(b[..|b| - 1])
  }

  /** Neither the first nor the last byte of s is zero (vacuous for the empty string). */
  predicate ZeroFreeEnds(s: seq<byte>)
  {
    s == [] || (s[0] != 0 && s[|s| - 1] != 0)
  }

  /**
   * DecodeToString: bytes.Trim(datas, "\x00") converted to a string.
   * Only the two ends are stripped; zero bytes inside are kept.
   */
  function DecodeToString(datas: seq<byte>): (s: Str)
    ensures ZeroFreeEnds(s)
    ensures |s| <= |datas|
    ensures s == [] <==> forall i | 0 <= i < |datas| :: datas[i] == 0
  {
    var lo := LeadingZeros(datas);
    if lo == |datas| then []
    else
      var hi := |datas| - TrailingZeros(datas);
      assert datas[hi - 1] != 0;
      datas[lo..hi]
  }

  /** The input is a run of zeros, then the result, then a run of zeros. */
  lemma DecodeToStringSlice(datas: seq<byte>)
    ensures exists lo: nat | lo + |DecodeToString(datas)| <= |datas| ::
      datas == Zeros(lo) + DecodeToString(datas) + Zeros(|datas| - lo - |DecodeToString(datas)|)
  {
    var s := DecodeToString(datas);
    var lo := LeadingZeros(datas);
    if lo == |datas| {
      assert datas == Zeros(lo) + s + Zeros(0);
    } else {
      var hi := |datas| - TrailingZeros(datas);
      assert datas == Zeros(lo) + s + Zeros(|datas| - lo - |s|);
    }
  }

  /**
   * The decomposition determines the result: whatever zero runs surround a
   * string with zero-free ends, trimming returns exactly that string.
   */
  lemma {:induction false} DecodeToStringOfPadded(a: nat, t: seq<byte>, b: nat)
    requires ZeroFreeEnds(t)
    ensures DecodeToString(Zeros(a) + t + Zeros(b)) == t
  {
    var d := Zeros(a) + t + Zeros(b);
    if t == [] {
      assert forall i | 0 <= i < |d| :: d[i] == 0;
    } else {
      var lo := LeadingZeros(d);
      assert d[a] == t[0];
      assert lo == a;
      var tz := TrailingZeros(d);
      assert d[|d| - 1 - b] == t[|t| - 1];
      assert tz == b;
      assert d[a..|d| - b] == t;
    }
  }

  /** Trimming is idempotent. */
  lemma DecodeToStringIdempotent(datas: seq<byte>)
    ensures DecodeToString(DecodeToString(datas)) == DecodeToString(datas)
  {
    var s := DecodeToString(datas);
    assert s == Zeros(0) + s + Zeros(0);
    DecodeToStringOfPadded(0, s, 0);
  }

  /** A string whose end bytes are non-zero comes back unchanged. */
  lemma DecodeToStringKeeps(s: seq<byte>)
    requires ZeroFreeEnds(s)
    ensures DecodeToString(s) == s
  {
    assert s == Zeros(0) + s + Zeros(0);
    DecodeToStringOfPadded(0, s, 0);
  }

  /**
   * Only the ends are trimmed: a run of zeros between two non-zero bytes
   * survives, whatever padding surrounds them.
   */
  lemma DecodeToStringKeepsInteriorZeros(p: nat, a: byte, m: nat, b: byte, q: nat)
    requires a != 0 && b != 0
    ensures DecodeToString(Zeros(p) + [a] + Zeros(m) + [b] + Zeros(q)) == [a] + Zeros(m) + [b]
  {
    var t := [a] + Zeros(m) + [b];
    assert Zeros(p) + [a] + Zeros(m) + [b] + Zeros(q) == Zeros(p) + t + Zeros(q);
    DecodeToStringOfPadded(p, t, q);
  }
}
