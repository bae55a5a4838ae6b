/** AES-256-GCM (NIST SP 800-38D) over an arbitrary block cipher. */
module Gcm {
  import opened Wrappers
  import opened Bits
  import opened Gf128

  type Block = b: bytes | |b| == 16 witness Zeros(16)

  /** The forward cipher: key and block to block. */
  type Cipher = (bytes, Block) -> Block

  datatype Error = AssertionError | OverflowError | TagMismatch

  const WORD: nat := 0x1_0000_0000

  /** The length field has 64 bits, so section 5.2.1.1 admits fewer than 2^64 bits of each input. */
  const MAX_BYTES: nat := 0x2000_0000_0000_0000

  // ---- integers ------------------------------------------------------------

  /** Inclusive or, digit by binary digit. */
  function Or(a: nat, b: nat): nat
    decreases a + b
  {
    if a == 0 && b == 0 then 0
    else (if a % 2 == 1 || b % 2 == 1 then 1 else 0) + 2 * Or(a / 2, b / 2)
  }

  lemma {:induction false} OrZero(a: nat)
    ensures Or(a, 0) == a && Or(0, a) == a
  {
    if a != 0 {
      OrZero(a / 2);
    }
  }

  lemma {:induction false} OrDisjoint(a: nat, b: nat, k: nat)
    requires b < Pow2(k)
    ensures Or(Shl(a, k), b) == Shl(a, k) + b
  {
    if k == 0 {
      OrZero(a);
    } else {
      OrDisjoint(a, b / 2, k - 1);
      Halves(0, Shl(a, k - 1));
    }
  }

  lemma WordIsPow2()
    ensures WORD == Pow2(32)
  {
    SmallPowers();
  }

  lemma BlockLimit()
    ensures Pow256(16) == LIMIT
  {
    Pow256IsPow2(16);
    Constants();
  }

  /** `x.to_bytes(16, "big")` of a number that fits */
  function Encode16(x: nat): (b: Block)
    requires x < LIMIT
    ensures ToInt(b) == x
  {
    BlockLimit();
    ToIntOfFromInt(x, 16);
    FromInt(x, 16)
  }

  lemma BlockBound(b: Block)
    ensures ToInt(b) < LIMIT && Encode16(ToInt(b)) == b
  {
    BlockLimit();
    FromIntOfToInt(b);
  }

  function Join(high: nat, low: nat): (x: nat)
    requires low < WORD
    ensures x == high * WORD + low
    ensures x / WORD == high && x % WORD == low
    ensures high < WORD * WORD * WORD ==> x < LIMIT
  {
    WordIsPow2();
    OrDisjoint(high, low, 32);
    ShlIsScale(high, 32);
    Or(Shl(high, 32), low)
  }

  /** Increments the rightmost 32 bits and keeps the others (section 6.2). */
  function Inc32(x: nat): (y: nat)
    ensures y / WORD == x / WORD && y % WORD == (x % WORD + 1) % WORD
    ensures x < LIMIT ==> y < LIMIT
  {
    Join(x / WORD, (x % WORD + 1) % WORD)
  }

  // ---- GHASH ---------------------------------------------------------------

  function Min(a: nat, b: nat): nat
  {
    if a < b then a else b
  }

  /** `chunk.ljust(16, b"\x00")` */
  function Pad(chunk: bytes): (b: Block)
    requires |chunk| <= 16
  {
    chunk + Zeros(16 - |chunk|)
  }

  /** The 16-byte blocks of a string, the last one padded with zeros, as integers. */
  function BlockInts(data: bytes): (bs: seq<nat>)
    ensures |bs| == (|data| + 15) / 16
  {
    if |data| == 0 then []
    else
      var n := Min(16, |data|);
      [ToInt(Pad(data[..n]))] + BlockInts(data[n..])
  }

  function Lengths(a: nat, c: nat): nat
  {
    Or(Shl(a * 8, 64), c * 8)
  }

  /** The blocks hashed: padded AAD, padded ciphertext, then the length block. */
  function GhashInput(aad: bytes, ct: bytes): seq<nat>
  {
    BlockInts(aad) + BlockInts(ct) + [Lengths(|aad|, |ct|)]
  }

  /** One multiplication by h after each block, as the loop does it. */
  function Horner(h: nat, y: nat, blocks: seq<nat>): nat
    decreases |blocks|
  {
    if |blocks| == 0 then y else Horner(h, Mul(Xor(y, blocks[0]), h), blocks[1..])
  }

  function GhashOf(h: nat, aad: bytes, ct: bytes): nat
  {
    Horner(h, 0, GhashInput(aad, ct))
  }

  lemma {:induction false} HornerAppend(h: nat, y: nat, a: seq<nat>, b: seq<nat>)
    ensures Horner(h, y, a + b) == Horner(h, Horner(h, y, a), b)
    decreases |a|
  {
    if |a| == 0 {
      assert a + b == b;
    } else {
      HornerAppend(h, Mul(Xor(y, a[0]), h), a[1..], b);
      assert (a + b)[1..] == a[1..] + b;
    }
  }

  method GhashBlocks(h: nat, y0: nat, data: bytes) returns (y: nat)
    ensures y == Horner(h, y0, BlockInts(data))
  {
    y := y0;
    var off := 0;
    while off < |data|
      invariant 0 <= off <= |data|
      invariant Horner(h, y, BlockInts(data[off..])) == Horner(h, y0, BlockInts(data))
    {
      var next := Min(off + 16, |data|);
      var block := Pad(data[off..next]);
      assert data[off..][..next - off] == data[off..next];
      assert data[off..][next - off..] == data[next..];
      y := GfMul(Xor(y, ToInt(block)), h);
      off := next;
    }
  }

  /** `_ghash` runs the same loop over the AAD and then over the ciphertext. */
  method Ghash(h: nat, aad: bytes, ct: bytes) returns (y: nat)
    ensures y == GhashOf(h, aad, ct)
  {
    var ya := GhashBlocks(h, 0, aad);
    var yc := GhashBlocks(h, ya, ct);
    var lens := Or(Shl(|aad| * 8, 64), |ct| * 8);
    y := GfMul(Xor(yc, lens), h);
    HornerAppend(h, 0, BlockInts(aad), BlockInts(ct));
    HornerAppend(h, 0, BlockInts(aad) + BlockInts(ct), [lens]);
  }

  /** h to the power n */
  function HPow(h: nat, n: nat): nat
  {
    if n == 0 then ONE else Mul(h, HPow(h, n - 1))
  }

  /** The sum of block i times h^(m - i) over the blocks, the last one times h (section 6.4). */
  function PowerSum(h: nat, blocks: seq<nat>): nat
  {
    if |blocks| == 0 then 0
    else Xor(Mul(blocks[0], HPow(h, |blocks|)), PowerSum(h, blocks[1..]))
  }

  ghost predicate AreBlocks(blocks: seq<nat>)
  {
    forall i :: 0 <= i < |blocks| ==> blocks[i] < LIMIT
  }

  lemma {:induction false} PowerSumBound(h: nat, blocks: seq<nat>)
    requires h < LIMIT && AreBlocks(blocks)
    ensures PowerSum(h, blocks) < LIMIT
  {
    if |blocks| > 0 {
      PowerSumBound(h, blocks[1..]);
      MulBound(blocks[0], HPow(h, |blocks|));
      XorLimit(Mul(blocks[0], HPow(h, |blocks|)), PowerSum(h, blocks[1..]));
    }
  }

  lemma {:induction false} HornerIsPowerSum(h: nat, y: nat, blocks: seq<nat>)
    requires h < LIMIT && y < LIMIT && AreBlocks(blocks)
    ensures Horner(h, y, blocks) == Xor(Mul(y, HPow(h, |blocks|)), PowerSum(h, blocks))
    decreases |blocks|, 0
  {
    if |blocks| == 0 {
      MulIdentity(y);
      XorZero(y);
    } else {
      HornerFirst(h, y, blocks[0], blocks[1..]);
      assert blocks == [blocks[0]] + blocks[1..];
    }
  }

  lemma {:induction false} HornerFirst(h: nat, y: nat, b: nat, rest: seq<nat>)
    requires h < LIMIT && y < LIMIT && b < LIMIT && AreBlocks(rest)
    ensures Horner(h, y, [b] + rest) == Xor(Mul(y, HPow(h, |rest| + 1)), PowerSum(h, [b] + rest))
    decreases |rest|, 1
  {
    var z := Mul(Xor(y, b), h);
    XorLimit(y, b);
    MulBound(Xor(y, b), h);
    assert ([b] + rest)[1..] == rest;
    HornerIsPowerSum(h, z, rest);
    HornerStep(h, y, b, |rest|, PowerSum(h, rest));
  }

  lemma XorLimit(a: nat, b: nat)
    requires a < LIMIT && b < LIMIT
    ensures Xor(a, b) < LIMIT
  {
    Constants();
    XorBound(a, b, 128);
  }

  lemma HornerStep(h: nat, y: nat, b: nat, n: nat, tail: nat)
    requires h < LIMIT && Xor(y, b) < LIMIT
    ensures Xor(Mul(Mul(Xor(y, b), h), HPow(h, n)), tail)
         == Xor(Mul(y, HPow(h, n + 1)), Xor(Mul(b, HPow(h, n + 1)), tail))
  {
    var p := HPow(h, n + 1);
    assert p == Mul(h, HPow(h, n));
    MulAssociates(Xor(y, b), h, HPow(h, n));
    MulDistributes(y, b, p);
    XorAssoc(Mul(y, p), Mul(b, p), tail);
  }

  lemma {:induction false} BlockIntsBound(data: bytes)
    ensures AreBlocks(BlockInts(data))
  {
    if |data| > 0 {
      var n := Min(16, |data|);
      BlockBound(Pad(data[..n]));
      BlockIntsBound(data[n..]);
    }
  }

  lemma LengthsBound(a: nat, c: nat)
    requires a < MAX_BYTES && c < MAX_BYTES
    ensures Lengths(a, c) < LIMIT
  {
    SmallPowers();
    Pow2Add(32, 32);
    OrDisjoint(a * 8, c * 8, 64);
    ShlIsScale(a * 8, 64);
  }

  lemma GhashInputBound(aad: bytes, ct: bytes)
    requires |aad| < MAX_BYTES && |ct| < MAX_BYTES
    ensures AreBlocks(GhashInput(aad, ct))
  {
    BlockIntsBound(aad);
    BlockIntsBound(ct);
    LengthsBound(|aad|, |ct|);
  }

  /** GHASH is the polynomial of section 6.4 evaluated at h. */
  lemma GhashIsPolynomial(h: nat, aad: bytes, ct: bytes)
    requires h < LIMIT && |aad| < MAX_BYTES && |ct| < MAX_BYTES
    ensures GhashOf(h, aad, ct) == PowerSum(h, GhashInput(aad, ct))
    ensures GhashOf(h, aad, ct) < LIMIT
  {
    var blocks := GhashInput(aad, ct);
    GhashInputBound(aad, ct);
    HornerIsPowerSum(h, 0, blocks);
    MulZero(HPow(h, |blocks|));
    XorZero(PowerSum(h, blocks));
    PowerSumBound(h, blocks);
  }

  function Difference(a: seq<nat>, b: seq<nat>): (d: seq<nat>)
    requires |a| == |b|
    ensures |d| == |a|
  {
    seq(|a|, i requires 0 <= i < |a| => Xor(a[i], b[i]))
  }

  lemma {:induction false} PowerSumXor(h: nat, a: seq<nat>, b: seq<nat>)
    requires |a| == |b|
    ensures PowerSum(h, Difference(a, b)) == Xor(PowerSum(h, a), PowerSum(h, b))
  {
    if |a| == 0 {
      XorZero(0);
    } else {
      var p := HPow(h, |a|);
      assert Difference(a, b)[1..] == Difference(a[1..], b[1..]);
      PowerSumXor(h, a[1..], b[1..]);
      MulDistributes(a[0], b[0], p);
      XorSwap(Mul(a[0], p), PowerSum(h, a[1..]), Mul(b[0], p), PowerSum(h, b[1..]));
    }
  }

  lemma {:induction false} LeadingZeros(h: nat, a: seq<nat>, b: seq<nat>)
    ensures PowerSum(h, Difference(a, a) + b) == PowerSum(h, b)
  {
    if |a| == 0 {
      assert Difference(a, a) + b == b;
    } else {
      XorZero(a[0]);
      MulZero(HPow(h, |a| + |b|));
      assert (Difference(a, a) + b)[1..] == Difference(a[1..], a[1..]) + b;
      LeadingZeros(h, a[1..], b);
      XorZero(PowerSum(h, b));
    }
  }

  // ---- counter mode --------------------------------------------------------

  function Ctr(aes: Cipher, key: bytes, counter: nat, data: bytes): (out: bytes)
    requires counter < LIMIT
    ensures |out| == |data|
    decreases |data|
  {
    if |data| == 0 then []
    else
      var n := Min(16, |data|);
      XorBytes(data[..n], aes(key, Encode16(counter))) + Ctr(aes, key, Inc32(counter), data[n..])
  }

  lemma CtrUnfold(aes: Cipher, key: bytes, counter: nat, data: bytes, at: nat, next: nat)
    requires counter < LIMIT && at < |data| && next == Min(at + 16, |data|)
    ensures Ctr(aes, key, counter, data[at..])
         == XorBytes(data[at..next], aes(key, Encode16(counter))) + Ctr(aes, key, Inc32(counter), data[next..])
  {
    assert data[at..][..next - at] == data[at..next];
    assert data[at..][next - at..] == data[next..];
  }

  lemma Regroup(a: bytes, b: bytes, c: bytes)
    ensures a + (b + c) == (a + b) + c
  {
  }

  method CtrCrypt(aes: Cipher, key: bytes, counter0: nat, data: bytes) returns (out: bytes)
    requires counter0 < LIMIT
    ensures out == Ctr(aes, key, counter0, data)
  {
    out := [];
    var counter: nat := counter0;
    while |out| < |data|
      invariant |out| <= |data| && counter < LIMIT
      invariant out + Ctr(aes, key, counter, data[|out|..]) == Ctr(aes, key, counter0, data)
      decreases |data| - |out|
    {
      var ks := aes(key, Encode16(counter));
      var next := Min(|out| + 16, |data|);
      var chunk := data[|out|..next];
      CtrUnfold(aes, key, counter, data, |out|, next);
      Regroup(out, XorBytes(chunk, ks), Ctr(aes, key, Inc32(counter), data[next..]));
      out := out + XorBytes(chunk, ks);
      counter := Inc32(counter);
    }
  }

  /** The counter block that encrypts block i. */
  function CounterAt(counter: nat, i: nat): (c: nat)
    requires counter < LIMIT
    ensures c < LIMIT
    decreases i
  {
    if i == 0 then counter else CounterAt(Inc32(counter), i - 1)
  }

  /** Byte r of block q is combined with byte r of the cipher of counter block q. */
  lemma CtrPointwise(aes: Cipher, key: bytes, counter: nat, data: bytes, q: nat, r: nat)
    requires counter < LIMIT && r < 16 && 16 * q + r < |data|
    ensures Ctr(aes, key, counter, data)[16 * q + r]
         == XorByte(data[16 * q + r], aes(key, Encode16(CounterAt(counter, q)))[r])
  {
    CtrAt(aes, key, counter, data, 16 * q + r, q, r);
  }

  lemma {:induction false} CtrAt(aes: Cipher, key: bytes, counter: nat, data: bytes, i: nat, q: nat, r: nat)
    requires counter < LIMIT && r < 16 && i == 16 * q + r && i < |data|
    ensures Ctr(aes, key, counter, data)[i] == XorByte(data[i], aes(key, Encode16(CounterAt(counter, q)))[r])
    decreases q
  {
    if q == 0 {
      CtrByte(aes, key, counter, data, i);
    } else {
      CtrShift(aes, key, counter, data, i);
      CtrAt(aes, key, Inc32(counter), data[16..], i - 16, q - 1, r);
    }
  }

  lemma CtrShift(aes: Cipher, key: bytes, counter: nat, data: bytes, i: nat)
    requires counter < LIMIT && 16 <= i < |data|
    ensures Ctr(aes, key, counter, data)[i] == Ctr(aes, key, Inc32(counter), data[16..])[i - 16]
    ensures data[16..][i - 16] == data[i]
  {
    CtrByte(aes, key, counter, data, i);
  }

  lemma CtrByte(aes: Cipher, key: bytes, counter: nat, data: bytes, i: nat)
    requires counter < LIMIT && i < |data|
    ensures Ctr(aes, key, counter, data)[i]
         == if i < 16 then XorByte(data[i], aes(key, Encode16(counter))[i])
            else Ctr(aes, key, Inc32(counter), data[16..])[i - 16]
  {
    var n := Min(16, |data|);
    var head := XorBytes(data[..n], aes(key, Encode16(counter)));
    var tail := Ctr(aes, key, Inc32(counter), data[n..]);
    assert Ctr(aes, key, counter, data) == head + tail;
  }

  lemma CtrConcat(aes: Cipher, key: bytes, counter: nat, head: bytes, tail: bytes)
    requires counter < LIMIT && 0 < |head| <= 16 && (|head| < 16 ==> tail == [])
    ensures Ctr(aes, key, counter, head + tail)
         == XorBytes(head, aes(key, Encode16(counter))) + Ctr(aes, key, Inc32(counter), tail)
  {
    assert (head + tail)[..|head|] == head && (head + tail)[|head|..] == tail;
  }

  /** Counter mode is its own inverse. */
  lemma {:induction false} CtrInvolution(aes: Cipher, key: bytes, counter: nat, data: bytes)
    requires counter < LIMIT
    ensures Ctr(aes, key, counter, Ctr(aes, key, counter, data)) == data
    decreases |data|
  {
    if |data| > 0 {
      var n := Min(16, |data|);
      var ks := aes(key, Encode16(counter));
      var head, tail := XorBytes(data[..n], ks), Ctr(aes, key, Inc32(counter), data[n..]);
      XorBytesCancel(data[..n], ks);
      CtrInvolution(aes, key, Inc32(counter), data[n..]);
      CtrConcat(aes, key, counter, head, tail);
      assert data == data[..n] + data[n..];
    }
  }

  lemma {:induction false} CounterWords(counter: nat, i: nat)
    requires counter < LIMIT
    ensures CounterAt(counter, i) / WORD == counter / WORD
    ensures CounterAt(counter, i) % WORD == (counter + i) % WORD
    decreases i
  {
    if i > 0 {
      var next := Inc32(counter);
      CounterWords(next, i - 1);
      AddModulo(counter, next, i - 1);
      assert counter + (i - 1) + 1 == counter + i;
      assert CounterAt(counter, i) == CounterAt(next, i - 1);
    }
  }

  lemma AddModulo(c: nat, d: nat, i: nat)
    requires d % WORD == (c % WORD + 1) % WORD
    ensures (d + i) % WORD == (c + i + 1) % WORD
  {
    SameModulo(c % WORD, c, 1);
    SameModulo(d, c + 1, i);
  }

  /** The pre-counter block: the IV, then the 32-bit word 1. */
  function J0(iv: bytes): (j: nat)
    requires |iv| == 12
    ensures j < LIMIT && j / WORD == ToInt(iv) && j % WORD == 1
  {
    assert Pow256(12) == WORD * WORD * WORD;
    Join(ToInt(iv), 1)
  }

  /** Block i of a message is encrypted with this counter block. */
  function MessageCounter(iv: bytes, i: nat): (c: nat)
    requires |iv| == 12
    ensures c < LIMIT
  {
    CounterAt(Inc32(J0(iv)), i)
  }

  lemma MessageCounterWords(iv: bytes, i: nat)
    requires |iv| == 12
    ensures MessageCounter(iv, i) / WORD == ToInt(iv)
    ensures MessageCounter(iv, i) % WORD == (i + 2) % WORD
  {
    var c := Inc32(J0(iv));
    CounterWords(c, i);
    SameModulo(c, 2, i);
  }

  lemma SameModulo(c: nat, d: nat, i: nat)
    requires c % WORD == d % WORD
    ensures (c + i) % WORD == (d + i) % WORD
  {
  }

  ghost predicate CountersDistinct(iv: bytes, n: nat)
    requires |iv| == 12
  {
    && (forall i: nat, j: nat :: i < j < n ==> MessageCounter(iv, i) != MessageCounter(iv, j))
    && (forall i: nat :: i < n ==> MessageCounter(iv, i) != J0(iv))
  }

  /** Counter blocks of one message never repeat and never meet the block that masks the tag,
      for at most 2^32 - 1 blocks and for no more. */
  lemma CountersDistinctIff(iv: bytes, n: nat)
    requires |iv| == 12
    ensures CountersDistinct(iv, n) <==> n <= WORD - 1
  {
    if n <= WORD - 1 {
      forall i: nat, j: nat | i < j < n
        ensures MessageCounter(iv, i) != MessageCounter(iv, j)
      {
        DistinctCounters(iv, i, j);
      }
      forall i: nat | i < n
        ensures MessageCounter(iv, i) != J0(iv)
      {
        MessageCounterJ0(iv, i);
        DistinctModulo(1, i + 2);
      }
    } else {
      var last: nat :| last == WORD - 1;
      MessageCounterJ0(iv, last);
    }
  }

  lemma DistinctCounters(iv: bytes, i: nat, j: nat)
    requires |iv| == 12 && i < j < i + WORD
    ensures MessageCounter(iv, i) != MessageCounter(iv, j)
  {
    MessageCounterWords(iv, i);
    MessageCounterWords(iv, j);
    DistinctModulo(i + 2, j + 2);
  }

  lemma MessageCounterJ0(iv: bytes, i: nat)
    requires |iv| == 12
    ensures MessageCounter(iv, i) == J0(iv) <==> (i + 2) % WORD == 1
  {
    MessageCounterWords(iv, i);
    SameWords(MessageCounter(iv, i), J0(iv));
  }

  lemma SameWords(a: nat, b: nat)
    ensures a == b <==> a / WORD == b / WORD && a % WORD == b % WORD
  {
  }

  lemma DistinctModulo(a: nat, b: nat)
    requires a < b < a + WORD
    ensures a % WORD != b % WORD
  {
  }

  lemma ZeroWords(c: nat)
    ensures c == 0 <==> c / WORD == 0 && c % WORD == 0
  {
  }

  lemma SmallModulo(a: nat)
    requires a < WORD
    ensures a % WORD == a
  {
  }

  ghost predicate CountersNonzero(iv: bytes, n: nat)
    requires |iv| == 12
  {
    forall i: nat :: i < n ==> MessageCounter(iv, i) != 0
  }

  /** No counter block of a message is the zero block that yields the hash key: always for at
      most 2^32 - 2 blocks, and beyond that exactly when the IV is not zero. */
  lemma CountersNonzeroIff(iv: bytes, n: nat)
    requires |iv| == 12
    ensures CountersNonzero(iv, n) <==> n <= WORD - 2 || ToInt(iv) != 0
  {
    if n <= WORD - 2 || ToInt(iv) != 0 {
      CountersStayNonzero(iv, n);
    } else {
      var last: nat :| last == WORD - 2;
      MessageCounterZero(iv, last);
    }
  }

  lemma CountersStayNonzero(iv: bytes, n: nat)
    requires |iv| == 12 && (n <= WORD - 2 || ToInt(iv) != 0)
    ensures CountersNonzero(iv, n)
  {
    forall i: nat | i < n
      ensures MessageCounter(iv, i) != 0
    {
      MessageCounterZero(iv, i);
      if ToInt(iv) == 0 {
        SmallModulo(i + 2);
      }
    }
  }

  lemma MessageCounterZero(iv: bytes, i: nat)
    requires |iv| == 12
    ensures MessageCounter(iv, i) == 0 <==> ToInt(iv) == 0 && (i + 2) % WORD == 0
  {
    MessageCounterWords(iv, i);
    ZeroWords(MessageCounter(iv, i));
  }

  // ---- authenticated encryption --------------------------------------------

  function HashKey(aes: Cipher, key: bytes): (h: nat)
    ensures h < LIMIT
  {
    BlockBound(aes(key, Zeros(16)));
    ToInt(aes(key, Zeros(16)))
  }

  /** The tag, or the OverflowError of `to_bytes(16)`. */
  function TagOf(aes: Cipher, key: bytes, iv: bytes, ct: bytes, aad: bytes): (r: Result<bytes, Error>)
    requires |iv| == 12
    ensures r.Ok? ==> |r.value| == 16
  {
    var t := Xor(ToInt(aes(key, Encode16(J0(iv)))), GhashOf(HashKey(aes, key), aad, ct));
    if t < LIMIT then Ok(Encode16(t)) else Err(OverflowError)
  }

  function Seal(aes: Cipher, key: bytes, iv: bytes, pt: bytes, aad: bytes): Result<(bytes, bytes), Error>
  {
    if |key| != 32 || |iv| != 12 then Err(AssertionError)
    else
      var ct := Ctr(aes, key, Inc32(J0(iv)), pt);
      match TagOf(aes, key, iv, ct, aad)
      case Err(e) => Err(e)
      case Ok(tag) => Ok((ct, tag))
  }

  function Open(aes: Cipher, key: bytes, iv: bytes, ct: bytes, tag: bytes, aad: bytes): Result<bytes, Error>
  {
    if |key| != 32 || |iv| != 12 || |tag| != 16 then Err(AssertionError)
    else
      match TagOf(aes, key, iv, ct, aad)
      case Err(e) => Err(e)
      case Ok(expected) =>
        if tag != expected then Err(TagMismatch) else Ok(Ctr(aes, key, Inc32(J0(iv)), ct))
  }

  method GcmEncrypt(aes: Cipher, key: bytes, iv: bytes, plaintext: bytes, aad: bytes)
    returns (r: Result<(bytes, bytes), Error>)
    ensures r == Seal(aes, key, iv, plaintext, aad)
  {
    if |key| != 32 || |iv| != 12 {
      return Err(AssertionError);
    }
    var h := HashKey(aes, key);
    var j0 := J0(iv);
    var ct := CtrCrypt(aes, key, Inc32(j0), plaintext);
    var s := Ghash(h, aad, ct);
    var t := Xor(ToInt(aes(key, Encode16(j0))), s);
    if t >= LIMIT {
      return Err(OverflowError);
    }
    r := Ok((ct, Encode16(t)));
  }

  method GcmDecrypt(aes: Cipher, key: bytes, iv: bytes, ciphertext: bytes, tag: bytes, aad: bytes)
    returns (r: Result<bytes, Error>)
    ensures r == Open(aes, key, iv, ciphertext, tag, aad)
  {
    if |key| != 32 || |iv| != 12 || |tag| != 16 {
      return Err(AssertionError);
    }
    var h := HashKey(aes, key);
    var j0 := J0(iv);
    var s := Ghash(h, aad, ciphertext);
    var t := Xor(ToInt(aes(key, Encode16(j0))), s);
    if t >= LIMIT {
      return Err(OverflowError);
    }
    if tag != Encode16(t) {
      return Err(TagMismatch);
    }
    var pt := CtrCrypt(aes, key, Inc32(j0), ciphertext);
    r := Ok(pt);
  }

  /** Decryption accepts exactly what encryption produces, and gives its plaintext back. */
  lemma OpenInvertsSeal(aes: Cipher, key: bytes, iv: bytes, pt: bytes, ct: bytes, tag: bytes, aad: bytes)
    ensures Open(aes, key, iv, ct, tag, aad) == Ok(pt) <==> Seal(aes, key, iv, pt, aad) == Ok((ct, tag))
  {
    if |key| == 32 && |iv| == 12 {
      CtrInvolution(aes, key, Inc32(J0(iv)), pt);
      CtrInvolution(aes, key, Inc32(J0(iv)), ct);
    }
  }

  /** Encryption succeeds on every input whose lengths fit the length block. */
  lemma SealSucceeds(aes: Cipher, key: bytes, iv: bytes, pt: bytes, aad: bytes)
    requires |key| == 32 && |iv| == 12 && |pt| < MAX_BYTES && |aad| < MAX_BYTES
    ensures Seal(aes, key, iv, pt, aad).Ok?
  {
    var ct := Ctr(aes, key, Inc32(J0(iv)), pt);
    GhashIsPolynomial(HashKey(aes, key), aad, ct);
    var m := aes(key, Encode16(J0(iv)));
    BlockBound(m);
    XorLimit(ToInt(m), GhashOf(HashKey(aes, key), aad, ct));
  }

  /** The round trip of every message that encryption can carry. */
  lemma RoundTrip(aes: Cipher, key: bytes, iv: bytes, pt: bytes, aad: bytes)
    requires |key| == 32 && |iv| == 12 && |pt| < MAX_BYTES && |aad| < MAX_BYTES
    ensures var r := Seal(aes, key, iv, pt, aad);
            r.Ok? && Open(aes, key, iv, r.value.0, r.value.1, aad) == Ok(pt)
  {
    SealSucceeds(aes, key, iv, pt, aad);
    var v := Seal(aes, key, iv, pt, aad).value;
    OpenInvertsSeal(aes, key, iv, pt, v.0, v.1, aad);
  }

  /** Under an accepted tag, a changed ciphertext of the same length is accepted exactly when
      the polynomial of the block differences vanishes at the hash key. The last block of the
      polynomial is the unchanged length block. */
  lemma ChangedCiphertextAccepted(aes: Cipher, key: bytes, iv: bytes, ct: bytes, changed: bytes, tag: bytes, aad: bytes)
    requires |ct| == |changed| < MAX_BYTES && |aad| < MAX_BYTES
    requires Open(aes, key, iv, ct, tag, aad).Ok?
    ensures Open(aes, key, iv, changed, tag, aad).Ok?
       <==> PowerSum(HashKey(aes, key), Difference(BlockInts(ct), BlockInts(changed)) + [0]) == 0
  {
    var h := HashKey(aes, key);
    GhashIsPolynomial(h, aad, ct);
    GhashIsPolynomial(h, aad, changed);
    SameGhash(h, aad, ct, changed);
    TagsAgree(aes, key, iv, ct, changed, aad);
  }

  lemma TagsAgree(aes: Cipher, key: bytes, iv: bytes, ct: bytes, changed: bytes, aad: bytes)
    requires |iv| == 12
    requires GhashOf(HashKey(aes, key), aad, ct) < LIMIT && GhashOf(HashKey(aes, key), aad, changed) < LIMIT
    ensures TagOf(aes, key, iv, ct, aad).Ok? && TagOf(aes, key, iv, changed, aad).Ok?
    ensures TagOf(aes, key, iv, ct, aad) == TagOf(aes, key, iv, changed, aad)
       <==> GhashOf(HashKey(aes, key), aad, ct) == GhashOf(HashKey(aes, key), aad, changed)
  {
    var m := aes(key, Encode16(J0(iv)));
    BlockBound(m);
    SameTag(ToInt(m), GhashOf(HashKey(aes, key), aad, ct), GhashOf(HashKey(aes, key), aad, changed));
  }

  lemma SplitDifference(a: seq<nat>, c: seq<nat>, d: seq<nat>, l: nat)
    requires |c| == |d|
    ensures Difference(a + c + [l], a + d + [l]) == Difference(a, a) + (Difference(c, d) + [0])
  {
    XorZero(l);
  }

  lemma SameGhash(h: nat, aad: bytes, ct: bytes, changed: bytes)
    requires |ct| == |changed|
    requires GhashOf(h, aad, ct) == PowerSum(h, GhashInput(aad, ct))
    requires GhashOf(h, aad, changed) == PowerSum(h, GhashInput(aad, changed))
    ensures GhashOf(h, aad, ct) == GhashOf(h, aad, changed)
       <==> PowerSum(h, Difference(BlockInts(ct), BlockInts(changed)) + [0]) == 0
  {
    var ba, bc, bd := BlockInts(aad), BlockInts(ct), BlockInts(changed);
    var l := Lengths(|aad|, |ct|);
    PowerSumXor(h, ba + bc + [l], ba + bd + [l]);
    XorIsZero(GhashOf(h, aad, ct), GhashOf(h, aad, changed));
    SplitDifference(ba, bc, bd, l);
    LeadingZeros(h, ba, Difference(bc, bd) + [0]);
  }

  lemma SameTag(m: nat, a: nat, b: nat)
    requires m < LIMIT && a < LIMIT && b < LIMIT
    ensures Xor(m, a) < LIMIT && Xor(m, b) < LIMIT
    ensures Encode16(Xor(m, a)) == Encode16(Xor(m, b)) <==> a == b
  {
    XorLimit(m, a);
    XorLimit(m, b);
    var ta, tb := Encode16(Xor(m, a)), Encode16(Xor(m, b));
    if ta == tb {
      assert Xor(m, a) == ToInt(ta) == ToInt(tb) == Xor(m, b);
      XorComm(m, a);
      XorComm(m, b);
      XorInjective(a, b, m);
    }
  }
}
