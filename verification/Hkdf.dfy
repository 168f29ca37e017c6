// HKDF-SHA256 as both programs write it (AppCrypto.cpp and AppCrypto.kt), over any HMAC
// with 32-byte results, against sections 2.2 and 2.3 of RFC 5869.

module Hkdf {
  import opened Bytes

  const HASH_LEN: nat := 32
  const MAX_OUTPUT: nat := 255 * 32

  type Hmac = (bytes, bytes) -> bytes

  ghost predicate IsHmac(hmac: Hmac) {
    forall key, data :: |hmac(key, data)| == HASH_LEN
  }

  function Zeros(n: nat): bytes { seq(n, i => 0) }

  /** Section 2.2; an absent salt is a string of HashLen zeros. */
  function Extract(hmac: Hmac, salt: bytes, ikm: bytes): bytes {
    hmac(if |salt| == 0 then Zeros(HASH_LEN) else salt, ikm)
  }

  /** T(n) of section 2.3: T(0) is empty and T(n) = HMAC(PRK, T(n-1) | info | n). */
  function T(hmac: Hmac, prk: bytes, info: bytes, n: nat): bytes
    requires n <= 255
  {
    if n == 0 then [] else hmac(prk, T(hmac, prk, info, n - 1) + info + [n])
  }

  /** T(1) | T(2) | ... | T(n). */
  function Blocks(hmac: Hmac, prk: bytes, info: bytes, n: nat): (r: bytes)
    requires n <= 255
  {
    if n == 0 then [] else Blocks(hmac, prk, info, n - 1) + T(hmac, prk, info, n)
  }

  lemma {:induction false} BlocksLength(hmac: Hmac, prk: bytes, info: bytes, n: nat)
    requires n <= 255 && IsHmac(hmac)
    ensures |Blocks(hmac, prk, info, n)| == HASH_LEN * n
  {
    if n > 0 {
      BlocksLength(hmac, prk, info, n - 1);
    }
  }

  /** N = ceil(L / HashLen). */
  function BlockCount(length: nat): nat { (length + HASH_LEN - 1) / HASH_LEN }

  /** OKM of section 2.3: the first L bytes of the blocks. */
  function Okm(hmac: Hmac, ikm: bytes, salt: bytes, info: bytes, length: nat): (r: bytes)
    requires length <= MAX_OUTPUT && IsHmac(hmac)
    ensures |r| == length
  {
    var prk := Extract(hmac, salt, ikm);
    BlocksLength(hmac, prk, info, BlockCount(length));
    Blocks(hmac, prk, info, BlockCount(length))[..length]
  }

  datatype Output = Derived(okm: bytes) | Rejected

  function Derive(hmac: Hmac, ikm: bytes, salt: bytes, info: bytes, length: int): Output
    requires IsHmac(hmac)
  {
    if 0 <= length <= MAX_OUTPUT then Derived(Okm(hmac, ikm, salt, info, length)) else Rejected
  }

  lemma {:induction false} BlocksGrow(hmac: Hmac, prk: bytes, info: bytes, m: nat, n: nat)
    requires m <= n <= 255 && IsHmac(hmac)
    ensures Blocks(hmac, prk, info, m) <= Blocks(hmac, prk, info, n)
    decreases n
  {
    if m < n {
      BlocksGrow(hmac, prk, info, m, n - 1);
    }
  }

  /** Every block is where the RFC says: byte i of any output is byte i % 32 of T(i / 32 + 1). */
  lemma OkmByte(hmac: Hmac, ikm: bytes, salt: bytes, info: bytes, length: nat, i: nat)
    requires i < length <= MAX_OUTPUT && IsHmac(hmac)
    ensures |T(hmac, Extract(hmac, salt, ikm), info, i / 32 + 1)| == 32
    ensures Okm(hmac, ikm, salt, info, length)[i] == T(hmac, Extract(hmac, salt, ikm), info, i / 32 + 1)[i % 32]
  {
    var prk, n := Extract(hmac, salt, ikm), i / 32 + 1;
    BlocksLength(hmac, prk, info, n - 1);
    BlocksLength(hmac, prk, info, n);
    BlocksLength(hmac, prk, info, BlockCount(length));
    BlocksGrow(hmac, prk, info, n, BlockCount(length));
    assert Blocks(hmac, prk, info, n)[i] == T(hmac, prk, info, n)[i - 32 * (n - 1)];
  }

  /** A shorter request is a prefix of a longer one. */
  lemma OkmPrefix(hmac: Hmac, ikm: bytes, salt: bytes, info: bytes, short: nat, long: nat)
    requires short <= long <= MAX_OUTPUT && IsHmac(hmac)
    ensures Okm(hmac, ikm, salt, info, short) == Okm(hmac, ikm, salt, info, long)[..short]
  {
    var prk := Extract(hmac, salt, ikm);
    BlocksLength(hmac, prk, info, BlockCount(short));
    BlocksGrow(hmac, prk, info, BlockCount(short), BlockCount(long));
  }

  /** How much of the output the first k blocks fill. */
  function Filled(k: nat, length: nat): nat { if 32 * k <= length then 32 * k else length }

  /** One turn of either loop: the next block extends the output, cut at the length. */
  lemma BlockStep(hmac: Hmac, prk: bytes, info: bytes, k: nat, length: nat)
    requires Filled(k, length) < length <= MAX_OUTPUT && IsHmac(hmac)
    ensures k < 255 && |T(hmac, prk, info, k + 1)| == 32
    ensures T(hmac, prk, info, k + 1) == hmac(prk, T(hmac, prk, info, k) + info + [k + 1])
    ensures |Blocks(hmac, prk, info, k)| >= Filled(k, length)
    ensures |Blocks(hmac, prk, info, k + 1)| >= Filled(k + 1, length)
    ensures Blocks(hmac, prk, info, k + 1)[..Filled(k + 1, length)]
            == Blocks(hmac, prk, info, k)[..Filled(k, length)]
               + T(hmac, prk, info, k + 1)[..Filled(k + 1, length) - Filled(k, length)]
  {
    BlocksLength(hmac, prk, info, k);
    BlocksLength(hmac, prk, info, k + 1);
  }

  /** The loop stops after exactly ceil(L / HashLen) blocks. */
  lemma LoopEnds(hmac: Hmac, ikm: bytes, salt: bytes, info: bytes, k: nat, length: nat)
    requires length <= MAX_OUTPUT && k <= BlockCount(length) && Filled(k, length) == length && IsHmac(hmac)
    ensures k == BlockCount(length)
    ensures |Blocks(hmac, Extract(hmac, salt, ikm), info, k)| >= length
    ensures Blocks(hmac, Extract(hmac, salt, ikm), info, k)[..length] == Okm(hmac, ikm, salt, info, length)
  {
    BlocksLength(hmac, Extract(hmac, salt, ikm), info, k);
  }

  /** The C++ loop: blocks are appended to a growing vector, cut at the requested length;
      the 16-bit counter is narrowed to one byte. */
  method HkdfServer(hmac: Hmac, ikm: bytes, salt: bytes, info: bytes, length: nat) returns (r: Output)
    requires IsHmac(hmac)
    ensures r == Derive(hmac, ikm, salt, info, length)
  {
    if length > 255 * HASH_LEN {
      return Rejected;
    }
    var effectiveSalt := if |salt| == 0 then Zeros(HASH_LEN) else salt;
    var prk := hmac(effectiveSalt, ikm);
    assert prk == Extract(hmac, salt, ikm);
    hide Blocks, T, Okm, Extract, IsHmac;
    var output: bytes := [];
    var previous: bytes := [];
    var counter := 1;
    BlocksStart(hmac, prk, info);
    while |output| < length
      invariant 1 <= counter <= BlockCount(length) + 1
      invariant previous == T(hmac, prk, info, counter - 1)
      invariant |output| == Filled(counter - 1, length) <= |Blocks(hmac, prk, info, counter - 1)|
      invariant output == Blocks(hmac, prk, info, counter - 1)[..Filled(counter - 1, length)]
      decreases BlockCount(length) + 1 - counter
    {
      BlockStep(hmac, prk, info, counter - 1, length);
      var block := hmac(prk, previous + info + [counter % 256]);
      var needed := if |block| < length - |output| then |block| else length - |output|;
      output := output + block[..needed];
      previous := block;
      counter := counter + 1;
    }
    LoopEnds(hmac, ikm, salt, info, counter - 1, length);
    r := Derived(output);
  }

  lemma BlocksStart(hmac: Hmac, prk: bytes, info: bytes)
    ensures Blocks(hmac, prk, info, 0) == [] == T(hmac, prk, info, 0)
  {
  }

  /** The Kotlin loop: blocks are copied into a fixed array at a moving offset. */
  method HkdfClient(hmac: Hmac, ikm: bytes, salt: bytes, info: bytes, length: int) returns (r: Output)
    requires IsHmac(hmac)
    ensures r == Derive(hmac, ikm, salt, info, length)
  {
    if !(0 <= length <= 255 * HASH_LEN) {
      return Rejected;
    }
    var effectiveSalt := if |salt| == 0 then Zeros(HASH_LEN) else salt;
    var prk := hmac(effectiveSalt, ikm);
    assert prk == Extract(hmac, salt, ikm);
    hide Blocks, T, Okm, Extract, IsHmac, BlockCount, Filled;
    var output := new byte[length](i => 0);
    ghost var k := Expand(hmac, prk, info, output);
    LoopEnds(hmac, ikm, salt, info, k, length);
    r := Derived(output[..]);
  }

  /** The loop itself, and how many blocks it took. */
  method Expand(hmac: Hmac, prk: bytes, info: bytes, output: array<byte>) returns (ghost k: nat)
    requires IsHmac(hmac) && output.Length <= MAX_OUTPUT
    modifies output
    ensures k <= BlockCount(output.Length) && k <= 255
            && Filled(k, output.Length) == output.Length <= |Blocks(hmac, prk, info, k)|
    ensures output[..] == Blocks(hmac, prk, info, k)[..output.Length]
  {
    hide *;
    var previous: bytes := [];
    var offset, counter := 0, 1;
    BlocksStart(hmac, prk, info);
    StartsEmpty(output.Length);
    while offset < output.Length
      invariant 1 <= counter <= BlockCount(output.Length) + 1 && counter <= 256
      invariant previous == T(hmac, prk, info, counter - 1)
      invariant offset == Filled(counter - 1, output.Length) <= |Blocks(hmac, prk, info, counter - 1)|
      invariant offset <= output.Length
      invariant output[..offset] == Blocks(hmac, prk, info, counter - 1)[..offset]
      decreases BlockCount(output.Length) + 1 - counter
    {
      BlockStep(hmac, prk, info, counter - 1, output.Length);
      FilledMore(counter - 1, output.Length);
      var block := hmac(prk, previous + info + [counter % 256]);
      previous := block;
      var copySize := if |block| < output.Length - offset then |block| else output.Length - offset;
      CopyInto(output, offset, block[..copySize]);
      offset := offset + copySize;
      counter := counter + 1;
    }
    k := counter - 1;
    assert output[..output.Length] == output[..];
  }

  lemma StartsEmpty(length: nat)
    ensures Filled(0, length) == 0 && BlockCount(length) >= 0
  {
  }

  lemma FilledMore(k: nat, length: nat)
    requires Filled(k, length) < length <= MAX_OUTPUT
    ensures k + 1 <= BlockCount(length) && (k + 1) % 256 == k + 1
    ensures Filled(k + 1, length) == Filled(k, length)
              + (if 32 < length - Filled(k, length) then 32 else length - Filled(k, length))
  {
  }

  /** Both ends, asked for the same secret, get the same bytes or the same refusal. */
  method BothEnds(hmac: Hmac, ikm: bytes, salt: bytes, info: bytes, length: nat)
      returns (server: Output, client: Output)
    requires IsHmac(hmac)
    ensures server == client
    ensures server.Derived? <==> length <= MAX_OUTPUT
  {
    server := HkdfServer(hmac, ikm, salt, info, length);
    client := HkdfClient(hmac, ikm, salt, info, length);
  }
}
