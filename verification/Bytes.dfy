/** Bytes, byte strings, and numbers in network byte order (wire.hpp). */
module Bytes {
  type Byte = b: int | 0 <= b < 256

  function Min(a: nat, b: nat): nat {
    if a <= b then a else b
  }

  /** put_uint32. */
  function PutUint32(v: nat): (r: seq<Byte>)
    requires v < 0x1_0000_0000
    ensures |r| == 4
  {
    [v / 0x100_0000, v / 0x1_0000 % 256, v / 256 % 256, v % 256]
  }

  /** get_uint32. */
  function GetUint32(b: seq<Byte>): (v: nat)
    requires |b| == 4
    ensures v < 0x1_0000_0000
  {
    b[0] as int * 0x100_0000 + b[1] as int * 0x1_0000 + b[2] as int * 256 + b[3]
  }

  /** put_uint64. */
  function PutUint64(v: nat): (r: seq<Byte>)
    requires v < 0x1_0000_0000_0000_0000
    ensures |r| == 8
  {
    PutUint32(v / 0x1_0000_0000) + PutUint32(v % 0x1_0000_0000)
  }

  /** get_uint64. */
  function GetUint64(b: seq<Byte>): (v: nat)
    requires |b| == 8
    ensures v < 0x1_0000_0000_0000_0000
  {
    GetUint32(b[..4]) * 0x1_0000_0000 + GetUint32(b[4..])
  }

  lemma Uint64RoundTrip(v: nat)
    requires v < 0x1_0000_0000_0000_0000
    ensures GetUint64(PutUint64(v)) == v
  {
    var hi, lo := PutUint32(v / 0x1_0000_0000), PutUint32(v % 0x1_0000_0000);
    Uint32RoundTrip(v / 0x1_0000_0000);
    Uint32RoundTrip(v % 0x1_0000_0000);
    assert (hi + lo)[..4] == hi && (hi + lo)[4..] == lo;
  }

  lemma Uint32RoundTrip(v: nat)
    requires v < 0x1_0000_0000
    ensures GetUint32(PutUint32(v)) == v
  {
    assert v == v / 256 * 256 + v % 256;
    assert v / 256 == v / 256 / 256 * 256 + v / 256 % 256;
    assert v / 256 / 256 == v / 0x1_0000;
    assert v / 0x1_0000 == v / 0x1_0000 / 256 * 256 + v / 0x1_0000 % 256;
    assert v / 0x1_0000 / 256 == v / 0x100_0000;
  }

  lemma Uint32OfBytes(b: seq<Byte>)
    requires |b| == 4
    ensures PutUint32(GetUint32(b)) == b
  {
    var v := GetUint32(b);
    assert v / 256 == b[0] as int * 0x1_0000 + b[1] as int * 256 + b[2] && v % 256 == b[3];
    assert v / 0x1_0000 == v / 256 / 256 == b[0] as int * 256 + b[1];
    assert v / 0x100_0000 == v / 0x1_0000 / 256 == b[0];
  }
}
