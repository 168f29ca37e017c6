// The streaming SHA-256 of protocol/sha256.h and the definition it must meet,
// sections 3.2, 4.1.2, 4.2.2, 5.1.1, 5.3.3 and 6.2.2 of FIPS 180-4.

/** The one-shot definition: words, padding, message schedule, rounds, chaining. */
module Sha256Spec {

  const TWO64: nat := 0x1_0000_0000_0000_0000

  const K: seq<bv32> := [
    0x428a2f98, 0x71374491, 0xb5c0fbcf, 0xe9b5dba5, 0x3956c25b, 0x59f111f1, 0x923f82a4, 0xab1c5ed5,
    0xd807aa98, 0x12835b01, 0x243185be, 0x550c7dc3, 0x72be5d74, 0x80deb1fe, 0x9bdc06a7, 0xc19bf174,
    0xe49b69c1, 0xefbe4786, 0x0fc19dc6, 0x240ca1cc, 0x2de92c6f, 0x4a7484aa, 0x5cb0a9dc, 0x76f988da,
    0x983e5152, 0xa831c66d, 0xb00327c8, 0xbf597fc7, 0xc6e00bf3, 0xd5a79147, 0x06ca6351, 0x14292967,
    0x27b70a85, 0x2e1b2138, 0x4d2c6dfc, 0x53380d13, 0x650a7354, 0x766a0abb, 0x81c2c92e, 0x92722c85,
    0xa2bfe8a1, 0xa81a664b, 0xc24b8b70, 0xc76c51a3, 0xd192e819, 0xd6990624, 0xf40e3585, 0x106aa070,
    0x19a4c116, 0x1e376c08, 0x2748774c, 0x34b0bcb5, 0x391c0cb3, 0x4ed8aa4a, 0x5b9cca4f, 0x682e6ff3,
    0x748f82ee, 0x78a5636f, 0x84c87814, 0x8cc70208, 0x90befffa, 0xa4506ceb, 0xbef9a3f7, 0xc67178f2]

  const H0: seq<bv32> := [
    0x6a09e667, 0xbb67ae85, 0x3c6ef372, 0xa54ff53a, 0x510e527f, 0x9b05688c, 0x1f83d9ab, 0x5be0cd19]

  function Rotr(x: bv32, n: nat): bv32
    requires n <= 32
  {
    (x >> n) | (x << (32 - n))
  }

  /** Addition modulo 2^32 (section 3.2). */
  function Add(x: bv32, y: bv32): bv32 { x + y }

  function Sum(x: bv32, y: bv32, z: bv32, w: bv32): bv32 { x + y + z + w }

  function Ch(x: bv32, y: bv32, z: bv32): bv32 { (x & y) ^ (!x & z) }

  function Maj(x: bv32, y: bv32, z: bv32): bv32 { (x & y) ^ (x & z) ^ (y & z) }

  function BigSigma0(x: bv32): bv32 { Rotr(x, 2) ^ Rotr(x, 13) ^ Rotr(x, 22) }

  function BigSigma1(x: bv32): bv32 { Rotr(x, 6) ^ Rotr(x, 11) ^ Rotr(x, 25) }

  function SmallSigma0(x: bv32): bv32 { Rotr(x, 7) ^ Rotr(x, 18) ^ (x >> 3) }

  function SmallSigma1(x: bv32): bv32 { Rotr(x, 17) ^ Rotr(x, 19) ^ (x >> 10) }

  /** The t-th word of the message schedule of a 64-byte block (section 6.2.2, step 1). */
  function Schedule(block: seq<bv8>, t: nat): bv32
    requires |block| == 64
  {
    if t < 16 then BigEndianWord(block[4 * t], block[4 * t + 1], block[4 * t + 2], block[4 * t + 3])
    else Sum(SmallSigma1(Schedule(block, t - 2)), Schedule(block, t - 7),
             SmallSigma0(Schedule(block, t - 15)), Schedule(block, t - 16))
  }

  function BigEndianWord(b0: bv8, b1: bv8, b2: bv8, b3: bv8): bv32 {
    ((b0 as bv32) << 24) | ((b1 as bv32) << 16) | ((b2 as bv32) << 8) | (b3 as bv32)
  }

  datatype Vars = Vars(a: bv32, b: bv32, c: bv32, d: bv32, e: bv32, f: bv32, g: bv32, h: bv32)

  function Round(v: Vars, k: bv32, w: bv32): Vars {
    var t1 := Add(Add(Add(Add(v.h, BigSigma1(v.e)), Ch(v.e, v.f, v.g)), k), w);
    var t2 := Add(BigSigma0(v.a), Maj(v.a, v.b, v.c));
    Vars(Add(t1, t2), v.a, v.b, v.c, Add(v.d, t1), v.e, v.f, v.g)
  }

  /** The working variables after the first n rounds (section 6.2.2, step 3). */
  function Rounds(v: Vars, block: seq<bv8>, n: nat): Vars
    requires |block| == 64 && n <= 64
  {
    if n == 0 then v else Round(Rounds(v, block, n - 1), K[n - 1], Schedule(block, n - 1))
  }

  /** One step of the chaining value (section 6.2.2, steps 2 and 4). */
  function Compress(h: seq<bv32>, block: seq<bv8>): (r: seq<bv32>)
    requires |h| == 8 && |block| == 64
    ensures |r| == 8
  {
    var v := Rounds(Vars(h[0], h[1], h[2], h[3], h[4], h[5], h[6], h[7]), block, 64);
    [Add(h[0], v.a), Add(h[1], v.b), Add(h[2], v.c), Add(h[3], v.d),
     Add(h[4], v.e), Add(h[5], v.f), Add(h[6], v.g), Add(h[7], v.h)]
  }

  /** The chaining value after a whole number of blocks. */
  function Chain(blocks: seq<bv8>): (r: seq<bv32>)
    requires |blocks| % 64 == 0
    ensures |r| == 8
  {
    if |blocks| == 0 then H0
    else Compress(Chain(blocks[..|blocks| - 64]), blocks[|blocks| - 64..])
  }

  /** The number of zero bytes between the 0x80 byte and the length field. */
  function ZeroCount(n: nat): nat { (119 - n % 64) % 64 }

  function Zeros(n: nat): seq<bv8> { seq(n, i => 0) }

  /** Byte k, counted from the least significant, of a 64-bit length. */
  function LengthByte(bits: nat, k: nat): bv8 {
    if k == 0 then ByteOf(bits) else LengthByte(bits / 256, k - 1)
  }

  function ByteOf(n: nat): bv8 { (n % 256) as bv8 }

  /** The 64-bit length field, most significant byte first. */
  function LengthField(bits: nat): (r: seq<bv8>)
    ensures |r| == 8
  {
    seq(8, (i: int) requires 0 <= i < 8 => LengthByte(bits, 7 - i))
  }

  /** Section 5.1.1: the message, a one bit, the fewest zero bits, the bit length. */
  function Pad(msg: seq<bv8>): (r: seq<bv8>)
    requires 8 * |msg| < TWO64
    ensures |r| % 64 == 0
  {
    msg + [0x80] + Zeros(ZeroCount(|msg|)) + LengthField(8 * |msg|)
  }

  function WordBytes(w: bv32): seq<bv8> {
    [((w >> 24) & 0xFF) as bv8, ((w >> 16) & 0xFF) as bv8, ((w >> 8) & 0xFF) as bv8, (w & 0xFF) as bv8]
  }

  function Output(h: seq<bv32>): (r: seq<bv8>)
    ensures |r| == 4 * |h|
  {
    if |h| == 0 then [] else Output(h[..|h| - 1]) + WordBytes(h[|h| - 1])
  }

  /** SHA-256 of a message of fewer than 2^64 bits. */
  function Digest(msg: seq<bv8>): (r: seq<bv8>)
    requires 8 * |msg| < TWO64
    ensures |r| == 32
  {
    Output(Chain(Pad(msg)))
  }

  /** The padding equation of section 5.1.1 in bits, and that no smaller k solves it. */
  lemma PaddingIsLeast(n: nat, k: nat)
    ensures (8 * n + 1 + (8 * ZeroCount(n) + 7)) % 512 == 448
    ensures (8 * n + 1 + k) % 512 == 448 ==> 8 * ZeroCount(n) + 7 <= k
  {
    var q, r := n / 64, n % 64;
    assert n == 64 * q + r;
    if (8 * n + 1 + k) % 512 == 448 {
      var m := (8 * n + 1 + k) / 512;
      assert 8 * r + 1 + k == 448 + 512 * (m - q);
      assert r < 56 ==> m - q >= 0;
      assert r >= 56 ==> m - q >= 1;
    }
    assert r < 56 ==> 8 * n + 1 + (8 * ZeroCount(n) + 7) == 448 + 512 * q;
    assert r >= 56 ==> 8 * n + 1 + (8 * ZeroCount(n) + 7) == 448 + 512 * (q + 1);
  }

  /** The last block is compressed into the chaining value of what precedes it. */
  lemma ChainStep(prefix: seq<bv8>, block: seq<bv8>)
    requires |prefix| % 64 == 0 && |block| == 64
    ensures Chain(prefix + block) == Compress(Chain(prefix), block)
  {
    assert (prefix + block)[..|prefix|] == prefix;
    assert (prefix + block)[|prefix|..] == block;
  }

  /** The code adds the four schedule terms in the opposite order to section 6.2.2. */
  lemma SumOrder(p: bv32, q: bv32, r: bv32, s: bv32)
    ensures Sum(p, q, r, s) == Sum(s, r, q, p)
  {
  }

  /** The round as the code writes it. */
  lemma RoundSpelled(a: bv32, b: bv32, c: bv32, d: bv32, e: bv32, f: bv32, g: bv32, h: bv32, k: bv32, w: bv32)
    ensures var t1 := Add(Add(Add(Add(h, Rotr(e, 6) ^ Rotr(e, 11) ^ Rotr(e, 25)), (e & f) ^ (!e & g)), k), w);
            var t2 := Add(Rotr(a, 2) ^ Rotr(a, 13) ^ Rotr(a, 22), (a & b) ^ (a & c) ^ (b & c));
            Round(Vars(a, b, c, d, e, f, g, h), k, w) == Vars(Add(t1, t2), a, b, c, Add(d, t1), e, f, g)
  {
    hide Add;
  }

  lemma CompressSpelled(h: seq<bv32>, block: seq<bv8>)
    requires |h| == 8 && |block| == 64
    ensures var v := Rounds(Vars(h[0], h[1], h[2], h[3], h[4], h[5], h[6], h[7]), block, 64);
            Compress(h, block) == [Add(h[0], v.a), Add(h[1], v.b), Add(h[2], v.c), Add(h[3], v.d),
                                   Add(h[4], v.e), Add(h[5], v.f), Add(h[6], v.g), Add(h[7], v.h)]
  {
    hide Add, Rounds;
  }

  lemma RoundsStep(v: Vars, block: seq<bv8>, i: nat)
    requires |block| == 64 && i < 64
    ensures Rounds(v, block, i + 1) == Round(Rounds(v, block, i), K[i], Schedule(block, i))
  {
    hide Round, Schedule;
  }

  lemma ScheduleStart(block: seq<bv8>, t: nat)
    requires |block| == 64 && t < 16
    ensures Schedule(block, t) == ((block[4 * t] as bv32) << 24) | ((block[4 * t + 1] as bv32) << 16)
                                  | ((block[4 * t + 2] as bv32) << 8) | (block[4 * t + 3] as bv32)
  {
  }

  /** The schedule step as the code writes it. */
  lemma ScheduleSpelled(block: seq<bv8>, t: nat)
    requires |block| == 64 && t >= 16
    ensures var w15, w2 := Schedule(block, t - 15), Schedule(block, t - 2);
            Schedule(block, t) == Sum(Schedule(block, t - 16), Rotr(w15, 7) ^ Rotr(w15, 18) ^ (w15 >> 3),
                                      Schedule(block, t - 7), Rotr(w2, 17) ^ Rotr(w2, 19) ^ (w2 >> 10))
  {
    hide Sum, Rotr;
    SumOrder(Schedule(block, t - 16), SmallSigma0(Schedule(block, t - 15)), Schedule(block, t - 7),
             SmallSigma1(Schedule(block, t - 2)));
  }
}

/** The class of protocol/sha256.h: a 64-byte buffer, two counters, eight state words. */
module StreamingSha256 {
  import opened Options
  import opened Sha256Spec

  class Sha256 {
    const data: array<bv8>
    const state: array<bv32>
    var len: nat
    var bitLen: nat
    ghost var absorbed: seq<bv8>

    ghost predicate Shaped()
    {
      data.Length == 64 && state.Length == 8
    }

    /** `fed` has been fed to the block function: its whole blocks are in the chaining
        value and its last `len` bytes are in the buffer. */
    ghost predicate Buffered(fed: seq<bv8>)
      reads this`len, data, state
      ensures Buffered(fed) ==> Shaped() && len <= 64 && len <= |fed| && (|fed| - len) % 64 == 0
    {
      && Shaped()
      && len <= 64 && len <= |fed| && (|fed| - len) % 64 == 0
      && fed[|fed| - len..] == data[..len]
      && state[..] == Chain(fed[..|fed| - len])
    }

    ghost predicate Valid()
      reads this, data, state
    {
      && Buffered(absorbed)
      && len < 64
      && bitLen == (8 * (|absorbed| - len)) % TWO64
    }

    constructor ()
      ensures Valid() && absorbed == []
      ensures fresh(data) && fresh(state)
    {
      data := new bv8[64](i => 0);
      state := new bv32[8](i => 0);
      new;
      Reset();
    }

    method Reset()
      requires Shaped()
      modifies this, state
      ensures Valid() && absorbed == []
    {
      hide Compress;
      len := 0;
      bitLen := 0;
      state[0] := 0x6a09e667;
      state[1] := 0xbb67ae85;
      state[2] := 0x3c6ef372;
      state[3] := 0xa54ff53a;
      state[4] := 0x510e527f;
      state[5] := 0x9b05688c;
      state[6] := 0x1f83d9ab;
      state[7] := 0x5be0cd19;
      absorbed := [];
      assert state[..] == H0 == Chain([]);
      assert absorbed[..0] == [] == data[..0];
    }

    /** One block: the schedule, the 64 rounds and the addition to the state, in place. */
    method Transform()
      requires Shaped()
      modifies state
      ensures state[..] == Compress(old(state[..]), data[..])
    {
      hide Add, Rotr, Round, Rounds, Schedule, Compress;
      var w := FillSchedule();
      ghost var block, s := data[..], state[..];
      var a, b, c, d, e, f, g, h := RunRounds(w, block);
      state[0] := Add(state[0], a);
      state[1] := Add(state[1], b);
      state[2] := Add(state[2], c);
      state[3] := Add(state[3], d);
      state[4] := Add(state[4], e);
      state[5] := Add(state[5], f);
      state[6] := Add(state[6], g);
      state[7] := Add(state[7], h);
      CompressSpelled(s, block);
    }

    /** The 64 rounds on the eight working variables. */
    method RunRounds(w: array<bv32>, ghost block: seq<bv8>)
      returns (a: bv32, b: bv32, c: bv32, d: bv32, e: bv32, f: bv32, g: bv32, h: bv32)
      requires Shaped() && w.Length == 64 && |block| == 64
      requires forall t :: 0 <= t < 64 ==> w[t] == Schedule(block, t)
      ensures Vars(a, b, c, d, e, f, g, h)
              == Rounds(Vars(state[0], state[1], state[2], state[3], state[4], state[5], state[6], state[7]), block, 64)
    {
      hide Add, Rotr, Round, Schedule;
      a, b, c, d := state[0], state[1], state[2], state[3];
      e, f, g, h := state[4], state[5], state[6], state[7];
      ghost var start := Vars(a, b, c, d, e, f, g, h);
      for i := 0 to 64
        invariant Vars(a, b, c, d, e, f, g, h) == Rounds(start, block, i)
      {
        RoundsStep(start, block, i);
        RoundSpelled(a, b, c, d, e, f, g, h, K[i], w[i]);
        var s1 := Rotr(e, 6) ^ Rotr(e, 11) ^ Rotr(e, 25);
        var ch := (e & f) ^ (!e & g);
        var temp1 := Add(Add(Add(Add(h, s1), ch), K[i]), w[i]);
        var s0 := Rotr(a, 2) ^ Rotr(a, 13) ^ Rotr(a, 22);
        var maj := (a & b) ^ (a & c) ^ (b & c);
        var temp2 := Add(s0, maj);
        h := g;
        g := f;
        f := e;
        e := Add(d, temp1);
        d := c;
        c := b;
        b := a;
        a := Add(temp1, temp2);
      }
    }

    method FillSchedule() returns (w: array<bv32>)
      requires Shaped()
      ensures fresh(w) && w.Length == 64
      ensures forall t :: 0 <= t < 64 ==> w[t] == Schedule(data[..], t)
    {
      hide *;
      w := new bv32[64](i => 0);
      LoadWords(w);
      ExtendWords(w);
    }

    /** The first sixteen words are the block, big-endian. */
    method LoadWords(w: array<bv32>)
      requires Shaped() && w.Length == 64 && w != state
      modifies w
      ensures forall t :: 0 <= t < 16 ==> w[t] == Schedule(data[..], t)
    {
      hide Schedule;
      for i := 0 to 16
        invariant forall t :: 0 <= t < i ==> w[t] == Schedule(data[..], t)
      {
        ScheduleStart(data[..], i);
        w[i] := ((data[i * 4] as bv32) << 24) | ((data[i * 4 + 1] as bv32) << 16)
                | ((data[i * 4 + 2] as bv32) << 8) | (data[i * 4 + 3] as bv32);
      }
    }

    method ExtendWords(w: array<bv32>)
      requires Shaped() && w.Length == 64 && w != state
      requires forall t :: 0 <= t < 16 ==> w[t] == Schedule(data[..], t)
      modifies w
      ensures forall t :: 0 <= t < 64 ==> w[t] == Schedule(data[..], t)
    {
      hide Sum, Rotr, Schedule;
      for i := 16 to 64
        invariant forall t :: 0 <= t < i ==> w[t] == Schedule(data[..], t)
      {
        var s0 := Rotr(w[i - 15], 7) ^ Rotr(w[i - 15], 18) ^ (w[i - 15] >> 3);
        var s1 := Rotr(w[i - 2], 17) ^ Rotr(w[i - 2], 19) ^ (w[i - 2] >> 10);
        ScheduleSpelled(data[..], i);
        w[i] := Sum(w[i - 16], s0, w[i - 7], s1);
      }
    }

    method Push(x: bv8, ghost fed: seq<bv8>)
      requires Buffered(fed) && len < 64
      modifies this`len, data
      ensures Buffered(fed + [x]) && len == old(len) + 1
    {
      hide Chain;
      data[len] := x;
      len := len + 1;
      assert (fed + [x])[..|fed| + 1 - len] == fed[..|fed| - old(len)];
    }

    /** Compresses the full buffer. */
    method CompressFull(ghost fed: seq<bv8>)
      requires Buffered(fed) && len == 64
      modifies state
      ensures |fed| % 64 == 0 && state[..] == Chain(fed)
    {
      hide Compress;
      Transform();
      assert data[..] == data[..64];
      ChainStep(fed[..|fed| - 64], data[..]);
      assert fed == fed[..|fed| - 64] + data[..];
    }

    /** Absorbs one chunk byte by byte, compressing whenever the buffer fills. */
    method Update(input: seq<bv8>)
      requires Valid()
      modifies this, data, state
      ensures Valid() && absorbed == old(absorbed) + input
    {
      hide Chain, Compress, Buffered;
      for i := 0 to |input|
        invariant Valid() && absorbed == old(absorbed) + input[..i]
      {
        Absorb(input[i]);
      }
    }

    method Absorb(x: bv8)
      requires Valid()
      modifies this, data, state
      ensures Valid() && absorbed == old(absorbed) + [x]
    {
      hide Chain, Compress, Buffered;
      ghost var fed := absorbed + [x];
      Push(x, absorbed);
      absorbed := fed;
      if len == 64 {
        CompressFull(fed);
        BitCount(8 * (|fed| - 64), 512);
        bitLen := (bitLen + 512) % TWO64;
        StartBlock(fed);
      }
    }

    /** After a compression the buffer is empty. */
    method StartBlock(ghost fed: seq<bv8>)
      requires Shaped() && |fed| % 64 == 0 && state[..] == Chain(fed)
      modifies this`len
      ensures len == 0 && Buffered(fed)
    {
      hide Chain, Compress;
      len := 0;
      assert fed[..|fed|] == fed && fed[|fed|..] == [];
    }

    /** Pads, compresses and returns the digest; the buffer is left full, so the object
        must be reset before it absorbs anything else. */
    method Final() returns (out: array<bv8>)
      requires Valid()
      modifies this, data, state
      ensures fresh(out) && absorbed == old(absorbed) && len == 64
      ensures 8 * |absorbed| < TWO64 ==> out[..] == Digest(absorbed)
    {
      hide Chain, Compress, Output, Buffered, Pad, LengthField;
      var i := len;
      ghost var fed := PadTail();
      var totalBits := (bitLen + i * 8) % TWO64;
      BitCount(8 * (|absorbed| - i), i * 8);
      fed := WriteLength(totalBits, fed);
      CompressFull(fed);
      out := Emit();
    }

    lemma Invariant()
      requires Valid()
      ensures Buffered(absorbed) && len < 64 && len == |absorbed| % 64
    {
      hide Chain;
    }

    /** The 0x80 byte and the zeros, spilling into one more block when they must. */
    method PadTail() returns (ghost fed: seq<bv8>)
      requires Valid()
      modifies this`len, data, state
      ensures Buffered(fed) && len == 56
      ensures 8 * |absorbed| < TWO64 ==> fed + LengthField(8 * |absorbed|) == Pad(absorbed)
    {
      hide *;
      Invariant();
      ghost var i := len;
      fed := absorbed + [0x80];
      Push(0x80, absorbed);
      if len > 56 {
        fed := SpillBlock(fed);
      }
      fed := FillZeros(56, fed);
      PadSplit(absorbed, i, fed);
    }

    /** No room for the length field: this block is filled up with zeros. */
    method SpillBlock(ghost fed: seq<bv8>) returns (ghost fed': seq<bv8>)
      requires Buffered(fed)
      modifies this`len, data, state
      ensures len == 0 && Buffered(fed')
      ensures fed' == fed + Zeros(64 - old(len))
    {
      hide Chain, Compress, Buffered, Zeros;
      fed' := FillZeros(64, fed);
      CompressFull(fed');
      StartBlock(fed');
    }

    method FillZeros(limit: nat, ghost fed: seq<bv8>) returns (ghost fed': seq<bv8>)
      requires Buffered(fed) && len <= limit <= 64
      modifies this`len, data
      ensures len == limit && Buffered(fed')
      ensures fed' == fed + Zeros(limit - old(len))
    {
      hide Chain;
      fed' := fed;
      while len < limit
        invariant old(len) <= len <= limit
        invariant Buffered(fed') && fed' == fed + Zeros(len - old(len))
      {
        Push(0x00, fed');
        fed' := fed' + [0x00];
      }
    }

    method WriteLength(totalBits: nat, ghost fed: seq<bv8>) returns (ghost fed': seq<bv8>)
      requires Buffered(fed) && len == 56
      modifies this`len, data
      ensures len == 64 && Buffered(fed')
      ensures fed' == fed + LengthField(totalBits)
    {
      hide Chain;
      fed' := fed;
      var k := 7;
      while k >= 0
        invariant -1 <= k <= 7 && len == 63 - k
        invariant Buffered(fed') && fed' == fed + LengthField(totalBits)[..7 - k]
        decreases k
      {
        Push(LengthByte(totalBits, k), fed');
        fed' := fed' + [LengthByte(totalBits, k)];
        k := k - 1;
      }
    }

    method Emit() returns (out: array<bv8>)
      requires Shaped()
      ensures fresh(out) && out[..] == Output(state[..])
    {
      hide WordBytes;
      out := new bv8[32](i => 0);
      for j := 0 to 8
        invariant out[..4 * j] == Output(state[..j])
      {
        assert state[..j + 1][..j] == state[..j];
        EmitWord(out, 4 * j, state[j]);
      }
      assert out[..32] == out[..] && state[..8] == state[..];
    }
  }

  method EmitWord(out: array<bv8>, k: nat, w: bv32)
    requires k + 4 <= out.Length
    modifies out
    ensures out[..k + 4] == old(out[..k]) + WordBytes(w)
  {
    hide WordBytes;
    ghost var bytes := WordBytes(w);
    WordSpelled(w);
    out[k + 0] := ((w >> 24) & 0xFF) as bv8;
    out[k + 1] := ((w >> 16) & 0xFF) as bv8;
    out[k + 2] := ((w >> 8) & 0xFF) as bv8;
    out[k + 3] := (w & 0xFF) as bv8;
    assert out[..k + 4] == out[..k] + [out[k], out[k + 1], out[k + 2], out[k + 3]];
  }

  lemma WordSpelled(w: bv32)
    ensures WordBytes(w)
        == [((w >> 24) & 0xFF) as bv8, ((w >> 16) & 0xFF) as bv8, ((w >> 8) & 0xFF) as bv8, (w & 0xFF) as bv8]
  {
  }

  /** A 64-bit counter that wraps still holds the bit length modulo 2^64. */
  lemma BitCount(blockBits: nat, restBits: nat)
    ensures (blockBits % TWO64 + restBits) % TWO64 == (blockBits + restBits) % TWO64
  {
  }

  /** Whether or not the tail spills into a second block, what precedes the length field
      is the message, the 0x80 byte and the fewest zeros. */
  lemma PadSplit(msg: seq<bv8>, i: nat, fed: seq<bv8>)
    requires i == |msg| % 64
    requires i < 56 ==> fed == msg + [0x80] + Zeros(55 - i)
    requires i >= 56 ==> fed == msg + [0x80] + Zeros(63 - i) + Zeros(56)
    ensures 8 * |msg| < TWO64 ==> fed + LengthField(8 * |msg|) == Pad(msg)
  {
    if i < 56 {
      assert ZeroCount(|msg|) == 55 - i;
    } else {
      assert ZeroCount(|msg|) == (63 - i) + 56;
      assert Zeros(ZeroCount(|msg|)) == Zeros(63 - i) + Zeros(56);
    }
  }

  function Flatten(chunks: seq<seq<bv8>>): seq<bv8> {
    if |chunks| == 0 then [] else Flatten(chunks[..|chunks| - 1]) + chunks[|chunks| - 1]
  }

  /** The upload path: however the bytes are cut into chunks, the digest is that of the whole. */
  method HashChunks(chunks: seq<seq<bv8>>) returns (digest: seq<bv8>)
    ensures 8 * |Flatten(chunks)| < TWO64 ==> digest == Digest(Flatten(chunks))
  {
    hide Digest, Chain, Sha256.Valid;
    var hasher := new Sha256();
    for i := 0 to |chunks|
      invariant fresh(hasher) && fresh(hasher.data) && fresh(hasher.state)
      invariant hasher.Valid() && hasher.absorbed == Flatten(chunks[..i])
    {
      hasher.Update(chunks[i]);
      assert chunks[..i + 1][..i] == chunks[..i];
    }
    assert chunks[..|chunks|] == chunks;
    var out := hasher.Final();
    digest := out[..];
  }

  const HEX: string := "0123456789abcdef"

  function HexDigit(x: bv8): char { HEX[(x & 0x0F) as int] }

  /** What a lower-case hexadecimal digit stands for. */
  function HexValue(c: char): Option<int> {
    if '0' <= c <= '9' then Some(c as int - '0' as int)
    else if 'a' <= c <= 'f' then Some(c as int - 'a' as int + 10)
    else None
  }

  /** Two digits stand for this byte, the first for the sixteens. */
  predicate Stand(c: char, d: char, x: bv8) {
    HexValue(c).Some? && HexValue(d).Some? && x as int == 16 * HexValue(c).value + HexValue(d).value
  }

  /** The string is the bytes in order, written with two digits each. */
  ghost predicate Spells(s: string, bytes: seq<bv8>) {
    |s| == 2 * |bytes| && forall i :: 0 <= i < |bytes| ==> Stand(s[2 * i], s[2 * i + 1], bytes[i])
  }

  lemma DigitsStand(x: bv8)
    ensures Stand(HexDigit(x >> 4), HexDigit(x), x)
  {
    var high, low := (x >> 4) & 0x0F, x & 0x0F;
    assert x == 16 * high + low;
    DigitValue(x >> 4);
    DigitValue(x);
  }

  lemma DigitValue(x: bv8)
    ensures HexValue(HexDigit(x)) == Some((x & 0x0F) as int)
  {
  }

  lemma NothingSpelled()
    ensures Spells("", [])
  {
  }

  lemma SpelledLength(s: string, bytes: seq<bv8>)
    requires Spells(s, bytes)
    ensures |s| == 2 * |bytes|
  {
  }

  lemma SpellMore(s: string, bytes: seq<bv8>, c: char, d: char, x: bv8)
    requires Spells(s, bytes) && Stand(c, d, x)
    ensures Spells(s + [c] + [d], bytes + [x])
  {
  }

  lemma OnePair(c: char, d: char, e: char, f: char, x: bv8)
    requires Stand(c, d, x) && Stand(e, f, x)
    ensures c == e && d == f
  {
  }

  /** There is only one way to spell a byte string. */
  lemma SpellingIsUnique(s: string, t: string, bytes: seq<bv8>)
    requires Spells(s, bytes) && Spells(t, bytes)
    ensures s == t
  {
    forall k | 0 <= k < |s| ensures s[k] == t[k] {
      var i := k / 2;
      assert k == 2 * i || k == 2 * i + 1;
      OnePair(s[2 * i], s[2 * i + 1], t[2 * i], t[2 * i + 1], bytes[i]);
    }
  }

  /** sha256Hex: the digest in 64 lower-case hexadecimal digits, each byte's high half first. */
  method Sha256Hex(input: seq<bv8>) returns (out: string)
    requires 8 * |input| < TWO64
    ensures |out| == 64 && Spells(out, Digest(input))
  {
    hide Digest, Chain, Sha256.Valid, HexDigit, HexValue, Spells, Stand;
    var h := new Sha256();
    h.Update(input);
    assert [] + input == input;
    var digest := h.Final();
    out := "";
    NothingSpelled();
    for i := 0 to digest.Length
      invariant digest[..] == Digest(input) && Spells(out, digest[..i])
    {
      var x := digest[i];
      DigitsStand(x);
      SpellMore(out, digest[..i], HexDigit(x >> 4), HexDigit(x), x);
      out := out + [HexDigit(x >> 4)];
      out := out + [HexDigit(x)];
      assert digest[..i + 1] == digest[..i] + [x];
    }
    assert digest[..digest.Length] == digest[..];
    SpelledLength(out, Digest(input));
  }
}
