/** What encryption produces, byte by byte, in the terms of sections 6.4 and 7.1 of SP 800-38D: the
    statements here use neither the integers of the program nor its names for the parts. */
module GcmStandard {
  import opened Wrappers
  import opened Bits
  import opened Gf128
  import opened Gcm

  const ZERO_BLOCK: Block := [0, 0, 0, 0, 0, 0, 0, 0, 0, 0, 0, 0, 0, 0, 0, 0]

  /** The string followed by the least number of zeros that fill its last block. */
  function Filled(data: bytes): (f: bytes)
    ensures |f| % 16 == 0 && |data| <= |f| < |data| + 16
    ensures data <= f && forall i :: |data| <= i < |f| ==> f[i] == 0
  {
    data + Zeros((16 - |data| % 16) % 16)
  }

  /** The blocks of a string, as the field elements they spell. */
  function Elements(data: bytes): seq<nat>
    requires |data| % 16 == 0
  {
    if |data| == 0 then [] else [ToInt(data[..16])] + Elements(data[16..])
  }

  lemma WholeBlocks(a: nat, b: nat)
    requires a % 16 == 0 && b % 16 == 0
    ensures (a + b) % 16 == 0
  {
  }

  /** What GHASH reads: padded AAD, padded ciphertext, then both bit lengths in 64 bits each. */
  function Hashed(aad: bytes, ct: bytes): (d: bytes)
    requires 8 * |aad| < Pow256(8) && 8 * |ct| < Pow256(8)
    ensures |d| % 16 == 0
  {
    var lens := FromInt(8 * |aad|, 8) + FromInt(8 * |ct|, 8);
    WholeBlocks(|Filled(aad)|, |Filled(ct)|);
    WholeBlocks(|Filled(aad)| + |Filled(ct)|, |lens|);
    Filled(aad) + Filled(ct) + lens
  }

  lemma LengthLimit(n: nat)
    requires n < MAX_BYTES
    ensures 8 * n < Pow256(8)
  {
    Pow256IsPow2(8);
    SmallPowers();
    Pow2Add(32, 32);
  }

  lemma {:induction false} ElementsConcat(a: bytes, b: bytes)
    requires |a| % 16 == 0 && |b| % 16 == 0
    ensures |a + b| % 16 == 0 && Elements(a + b) == Elements(a) + Elements(b)
  {
    WholeBlocks(|a|, |b|);
    if |a| == 0 {
      assert a + b == b;
    } else {
      ElementsConcat(a[16..], b);
      ElementsFirst(a, b);
    }
  }

  lemma ElementsFirst(a: bytes, b: bytes)
    requires |a| % 16 == 0 && |a| > 0 && |a + b| % 16 == 0 && |a[16..] + b| % 16 == 0
    ensures Elements(a + b) == [ToInt(a[..16])] + Elements(a[16..] + b)
  {
    assert (a + b)[..16] == a[..16] && (a + b)[16..] == a[16..] + b;
  }

  lemma {:induction false} BlocksOfFilled(data: bytes)
    ensures BlockInts(data) == Elements(Filled(data))
  {
    if |data| > 16 {
      BlocksOfFilled(data[16..]);
      FilledTail(data);
    } else if |data| > 0 {
      assert Filled(data) == Pad(data) && data[..|data|] == data && data[|data|..] == [];
      assert Pad(data)[..16] == Pad(data) && Pad(data)[16..] == [];
    }
  }

  lemma FilledTail(data: bytes)
    requires |data| > 16
    ensures Filled(data)[..16] == data[..16] == Pad(data[..16]) && Filled(data)[16..] == Filled(data[16..])
  {
  }

  lemma OneElement(b: Block)
    ensures Elements(b) == [ToInt(b)]
  {
    assert b[..16] == b && b[16..] == [];
  }

  /** The length block spells the two bit lengths, the AAD's first. */
  lemma LengthBlock(a: nat, c: nat)
    requires a < MAX_BYTES && c < MAX_BYTES
    ensures 8 * a < Pow256(8) && 8 * c < Pow256(8)
    ensures Lengths(a, c) == ToInt(FromInt(8 * a, 8) + FromInt(8 * c, 8))
  {
    LengthLimit(a);
    LengthLimit(c);
    Pow256IsPow2(8);
    OrDisjoint(a * 8, c * 8, 64);
    ShlIsScale(a * 8, 64);
    ToIntConcat(FromInt(8 * a, 8), FromInt(8 * c, 8));
    ToIntOfFromInt(8 * a, 8);
    ToIntOfFromInt(8 * c, 8);
  }

  /** GHASH reads exactly these bytes. */
  lemma GhashReads(aad: bytes, ct: bytes)
    requires |aad| < MAX_BYTES && |ct| < MAX_BYTES
    ensures 8 * |aad| < Pow256(8) && 8 * |ct| < Pow256(8)
    ensures GhashInput(aad, ct) == Elements(Hashed(aad, ct))
  {
    LengthBlock(|aad|, |ct|);
    var lens := FromInt(8 * |aad|, 8) + FromInt(8 * |ct|, 8);
    BlocksOfFilled(aad);
    BlocksOfFilled(ct);
    OneElement(lens);
    ElementsConcat(Filled(aad), Filled(ct));
    ElementsConcat(Filled(aad) + Filled(ct), lens);
  }

  lemma SameBlock(a: Block, b: Block)
    requires ToInt(a) == ToInt(b)
    ensures a == b
  {
    FromIntOfToInt(a);
    FromIntOfToInt(b);
  }

  /** A number made of the IV and a 32-bit word is written as the IV and the word. */
  lemma CounterBlock(iv: bytes, word: nat, c: nat)
    requires |iv| == 12 && word < WORD && c < LIMIT && c / WORD == ToInt(iv) && c % WORD == word
    ensures word < Pow256(4) && Encode16(c) == iv + FromInt(word, 4)
  {
    WordBytes();
    FromWords(c);
    ToIntConcat(iv, FromInt(word, 4));
    ToIntOfFromInt(word, 4);
    SameBlock(Encode16(c), iv + FromInt(word, 4));
  }

  lemma WordBytes()
    ensures Pow256(4) == WORD
  {
  }

  lemma FromWords(c: nat)
    ensures c == (c / WORD) * WORD + c % WORD
  {
  }

  lemma PreCounterBlock(iv: bytes)
    requires |iv| == 12
    ensures Encode16(J0(iv)) == iv + [0, 0, 0, 1]
  {
    CounterBlock(iv, 1, J0(iv));
    assert Pow256(4) == WORD && Pow256(3) > 0;
    assert FromInt(0, 1) == [0];
    assert FromInt(0, 2) == [0, 0];
    assert FromInt(0, 3) == [0, 0, 0];
    assert FromInt(1, 4) == [0, 0, 0, 1];
  }

  /** The counter block of message block q: the IV, then q + 2 in 32 bits, modulo 2^32. */
  function CounterOf(iv: bytes, q: nat): (b: Block)
    requires |iv| == 12
  {
    WordBytes();
    iv + FromInt((q + 2) % WORD, 4)
  }

  lemma MessageBlock(iv: bytes, q: nat)
    requires |iv| == 12
    ensures Encode16(MessageCounter(iv, q)) == CounterOf(iv, q)
  {
    MessageCounterWords(iv, q);
    CounterBlock(iv, (q + 2) % WORD, MessageCounter(iv, q));
  }

  lemma ZeroBlock()
    ensures Zeros(16) == ZERO_BLOCK
  {
  }

  /** Every byte of a ciphertext is the plaintext byte exclusive-or a byte of the cipher of its
      counter block. */
  lemma CiphertextByte(aes: Cipher, key: bytes, iv: bytes, pt: bytes, aad: bytes, q: nat, r: nat)
    requires Seal(aes, key, iv, pt, aad).Ok? && |iv| == 12 && r < 16 && 16 * q + r < |pt|
    ensures var ct := Seal(aes, key, iv, pt, aad).value.0;
            |ct| == |pt| && ct[16 * q + r] == XorByte(pt[16 * q + r], aes(key, CounterOf(iv, q))[r])
  {
    CtrPointwise(aes, key, Inc32(J0(iv)), pt, q, r);
    MessageBlock(iv, q);
  }

  /** The tag is GHASH of the padded strings and their bit lengths under the cipher of the zero
      block, exclusive-or the cipher of the IV followed by 1 in 32 bits (section 7.1). */
  lemma SealMeetsStandard(aes: Cipher, key: bytes, iv: bytes, pt: bytes, aad: bytes)
    requires |key| == 32 && |iv| == 12 && |pt| < MAX_BYTES && |aad| < MAX_BYTES
    ensures 8 * |aad| < Pow256(8) && 8 * |pt| < Pow256(8)
    ensures var r := Seal(aes, key, iv, pt, aad);
            && r.Ok? && |r.value.0| == |pt| && |r.value.1| == 16
            && ToInt(r.value.1) == Xor(ToInt(aes(key, iv + [0, 0, 0, 1])),
                                       PowerSum(ToInt(aes(key, ZERO_BLOCK)), Elements(Hashed(aad, r.value.0))))
  {
    SealSucceeds(aes, key, iv, pt, aad);
    var ct := Seal(aes, key, iv, pt, aad).value.0;
    GhashIsPolynomial(HashKey(aes, key), aad, ct);
    GhashReads(aad, ct);
    PreCounterBlock(iv);
    ZeroBlock();
  }
}
