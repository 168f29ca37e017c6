// Bytes and the fixed-width integer encodings every wire format of the system uses.

module Bytes {

  type byte = x: int | 0 <= x < 256
  type bytes = seq<byte>

  const TWO32: nat := 0x1_0000_0000
  const TWO64: nat := 0x1_0000_0000_0000_0000

  /** appendU32, encodeLen32, u32: the low 32 bits, most significant byte first. */
  function BigEndian32(v: nat): (r: bytes)
    ensures |r| == 4
  {
    [(v / 0x100_0000) % 256, (v / 0x1_0000) % 256, (v / 0x100) % 256, v % 256]
  }

  function Word(b3: nat, b2: nat, b1: nat, b0: nat): nat {
    b3 * 0x100_0000 + b2 * 0x1_0000 + b1 * 0x100 + b0
  }

  function ReadBigEndian32(b: bytes): (v: nat)
    requires |b| >= 4
    ensures v < TWO32
  {
    Word(b[0], b[1], b[2], b[3])
  }

  /** encodeType32, le32: the low 32 bits, least significant byte first. */
  function LittleEndian32(v: nat): (r: bytes)
    ensures |r| == 4
  {
    [v % 256, (v / 0x100) % 256, (v / 0x1_0000) % 256, (v / 0x100_0000) % 256]
  }

  function ReadLittleEndian32(b: bytes): (v: nat)
    requires |b| >= 4
    ensures v < TWO32
  {
    Word(b[3], b[2], b[1], b[0])
  }

  /** appendU64, u64: the low 64 bits, most significant byte first. */
  function BigEndian64(v: nat): (r: bytes)
    ensures |r| == 8
  {
    BigEndian32(v / TWO32) + BigEndian32(v)
  }

  /** Which byte comes first in either order. */
  lemma ByteOrder(b0: byte, b1: byte, b2: byte, b3: byte)
    ensures var v := b0 + 256 * b1 + 65536 * b2 + 16777216 * b3;
            BigEndian32(v) == [b3, b2, b1, b0] && LittleEndian32(v) == [b0, b1, b2, b3]
  {
    var v := b0 + 256 * b1 + 65536 * b2 + 16777216 * b3;
    var w := b1 + 256 * b2 + 65536 * b3;
    var x := b2 + 256 * b3;
    assert v / 0x100 == w && v % 256 == b0;
    assert w / 0x100 == x && w % 256 == b1;
    assert x / 0x100 == b3 && x % 256 == b2;
    Shifted(v);
  }

  lemma Shifted(v: nat)
    ensures v / 0x1_0000 == v / 0x100 / 0x100 && v / 0x100_0000 == v / 0x100 / 0x100 / 0x100
  {
  }

  lemma FourBytes(v: nat)
    ensures (v / 0x100_0000) % 256 * 0x100_0000 + (v / 0x1_0000) % 256 * 0x1_0000
            + (v / 0x100) % 256 * 0x100 + v % 256 == v % TWO32
  {
    var a := v / 0x100;
    var b := a / 0x100;
    var c := b / 0x100;
    assert v / 0x1_0000 == b && v / 0x100_0000 == c;
    assert v % TWO32 == (c % 256) * 0x100_0000 + v % 0x100_0000;
    assert v % 0x100_0000 == (b % 256) * 0x1_0000 + v % 0x1_0000;
    assert v % 0x1_0000 == (a % 256) * 0x100 + v % 0x100;
  }

  lemma BigEndian32RoundTrip(v: nat)
    ensures ReadBigEndian32(BigEndian32(v)) == v % TWO32
  {
    FourBytes(v);
  }

  lemma LittleEndian32RoundTrip(v: nat)
    ensures ReadLittleEndian32(LittleEndian32(v)) == v % TWO32
  {
    FourBytes(v);
  }

  lemma BigEndian32Injective(v: nat, w: nat)
    requires v < TWO32 && w < TWO32 && BigEndian32(v) == BigEndian32(w)
    ensures v == w
  {
    hide BigEndian32, ReadBigEndian32;
    BigEndian32RoundTrip(v);
    BigEndian32RoundTrip(w);
  }

  /** Distinct 64-bit sequence numbers have distinct encodings. */
  lemma BigEndian64Injective(v: nat, w: nat)
    requires v < TWO64 && w < TWO64 && BigEndian64(v) == BigEndian64(w)
    ensures v == w
  {
    hide BigEndian32, ReadBigEndian32;
    assert BigEndian64(v)[..4] == BigEndian32(v / TWO32) && BigEndian64(v)[4..] == BigEndian32(v);
    assert BigEndian64(w)[..4] == BigEndian32(w / TWO32) && BigEndian64(w)[4..] == BigEndian32(w);
    BigEndian32Injective(v / TWO32, w / TWO32);
    BigEndian32RoundTrip(v);
    BigEndian32RoundTrip(w);
  }

  function Concat(parts: seq<bytes>): bytes {
    if |parts| == 0 then [] else Concat(parts[..|parts| - 1]) + parts[|parts| - 1]
  }

  lemma ConcatAppend(parts: seq<bytes>, last: bytes)
    ensures Concat(parts + [last]) == Concat(parts) + last
  {
    assert (parts + [last])[..|parts|] == parts;
  }

  lemma {:induction false} ConcatSum(a: seq<bytes>, b: seq<bytes>)
    ensures Concat(a + b) == Concat(a) + Concat(b)
  {
    if |b| == 0 {
      assert a + b == a;
    } else {
      ConcatSum(a, b[..|b| - 1]);
      assert a + b == (a + b[..|b| - 1]) + [b[|b| - 1]];
      ConcatAppend(a + b[..|b| - 1], b[|b| - 1]);
    }
  }

  lemma ConcatHead(parts: seq<bytes>)
    requires |parts| > 0
    ensures Concat(parts) == parts[0] + Concat(parts[1..])
  {
    assert parts == [parts[0]] + parts[1..];
    ConcatSum([parts[0]], parts[1..]);
    assert Concat([parts[0]]) == parts[0];
  }

  /** Two encodings whose leading parts have equal length split at the same place. */
  lemma SplitEqual(a: bytes, b: bytes, c: bytes, d: bytes)
    requires |a| == |c| && a + b == c + d
    ensures a == c && b == d
  {
    assert (a + b)[..|a|] == a && (c + d)[..|c|] == c;
    assert (a + b)[|a|..] == b && (c + d)[|c|..] == d;
  }

  /** System.arraycopy and ByteArray.copyInto: writes a part at an offset. */
  method CopyInto(a: array<byte>, offset: nat, part: bytes)
    requires offset + |part| <= a.Length
    modifies a
    ensures a[..offset] == old(a[..offset])
    ensures a[..offset + |part|] == old(a[..offset]) + part
  {
    for i := 0 to |part|
      invariant a[..offset] == old(a[..offset])
      invariant a[offset..offset + i] == part[..i]
    {
      a[offset + i] := part[i];
    }
    assert a[..offset + |part|] == a[..offset] + a[offset..offset + |part|];
  }
}
