/** RSA-OAEP decryption of type 4 cipher strings (RFC 8017 sections 7.1 and B.2.1), over an
    arbitrary 20-byte hash. */
module Oaep {
  import opened Wrappers
  import opened Bits
  import Der

  type Digest = b: bytes | |b| == 20 witness Zeros(20)
  type Hash = bytes -> Digest

  datatype OaepError =
    | UnsupportedCipherString | InvalidEncoding | BadKey(error: Der.DerError)
    | InvalidLength | MaskTooLong | LeadingByte | LabelHash | DelimiterMissing | Padding

  /** The four-byte counter runs out after this many digests. */
  const MAX_DIGESTS: nat := 0x1_0000_0000

  lemma CounterRange()
    ensures Pow256(4) == MAX_DIGESTS
  {
  }

  function Digests(hash: Hash, seed: bytes, count: nat): (t: bytes)
    requires count <= MAX_DIGESTS
    ensures |t| == 20 * count
  {
    if count == 0 then []
    else
      CounterRange();
      Digests(hash, seed, count - 1) + hash(seed + FromInt(count - 1, 4))
  }

  function DigestsFor(length: nat): (count: nat)
    ensures 20 * count >= length && (count > 0 ==> 20 * (count - 1) < length)
  {
    (length + 19) / 20
  }

  /** The mask: the first bytes of the digests of the seed followed by 0, 1, 2, ... */
  function Mgf1(hash: Hash, seed: bytes, length: nat): (r: Result<bytes, OaepError>)
    ensures r.Ok? <==> length <= 20 * MAX_DIGESTS
    ensures r.Ok? ==> |r.value| == length
  {
    if DigestsFor(length) > MAX_DIGESTS then Err(MaskTooLong)
    else Ok(Digests(hash, seed, DigestsFor(length))[..length])
  }

  method Mgf1Sha1(hash: Hash, seed: bytes, length: nat) returns (r: Result<bytes, OaepError>)
    ensures r == Mgf1(hash, seed, length)
  {
    var out := [];
    var counter: nat := 0;
    while |out| < length
      invariant counter <= MAX_DIGESTS && out == Digests(hash, seed, counter)
      invariant counter == 0 || 20 * (counter - 1) < length
    {
      if counter == MAX_DIGESTS {
        return Err(MaskTooLong);
      }
      CounterRange();
      out := out + hash(seed + FromInt(counter, 4));
      counter := counter + 1;
    }
    assert counter == DigestsFor(length);
    r := Ok(out[..length]);
  }

  /** Byte 20 q + r of a mask is byte r of the digest of the seed followed by q. */
  lemma {:induction false} DigestByte(hash: Hash, seed: bytes, count: nat, q: nat, r: nat)
    requires count <= MAX_DIGESTS && q < count && r < 20
    ensures q < Pow256(4) && Digests(hash, seed, count)[20 * q + r] == hash(seed + FromInt(q, 4))[r]
  {
    CounterRange();
    if q < count - 1 {
      DigestByte(hash, seed, count - 1, q, r);
    }
  }

  lemma MaskByte(hash: Hash, seed: bytes, length: nat, q: nat, r: nat)
    requires length <= 20 * MAX_DIGESTS && r < 20 && 20 * q + r < length
    ensures q < Pow256(4)
    ensures Mgf1(hash, seed, length).value[20 * q + r] == hash(seed + FromInt(q, 4))[r]
  {
    DigestByte(hash, seed, DigestsFor(length), q, r);
  }

  /** Exclusive or with a mask of the same length. */
  function Unmask(hash: Hash, seed: bytes, data: bytes): (r: Result<bytes, OaepError>)
    ensures r.Ok? <==> |data| <= 20 * MAX_DIGESTS
    ensures r.Ok? ==> |r.value| == |data|
  {
    match Mgf1(hash, seed, |data|)
    case Err(e) => Err(e)
    case Ok(mask) => Ok(XorBytes(data, mask))
  }

  lemma UnmaskTwice(hash: Hash, seed: bytes, data: bytes)
    requires |data| <= 20 * MAX_DIGESTS
    ensures Unmask(hash, seed, Unmask(hash, seed, data).value) == Ok(data)
  {
    XorBytesCancel(data, Mgf1(hash, seed, |data|).value);
  }

  function IndexOf(data: bytes, b: byte): (i: Option<nat>)
    ensures i.None? <==> b !in data
    ensures i.Some? ==> i.value < |data| && data[i.value] == b && b !in data[..i.value]
  {
    if |data| == 0 then None
    else if data[0] == b then Some(0)
    else
      match IndexOf(data[1..], b)
      case None => None
      case Some(i) =>
        assert data[..i + 1] == [data[0]] + data[1..][..i];
        Some(i + 1)
  }

  /** The message in a data block: label hash, zeros, 01, message. */
  function ParseBlock(hash: Hash, db: bytes): Result<bytes, OaepError>
    requires |db| >= 20
  {
    if db[..20] != hash([]) then Err(LabelHash)
    else
      var rest := db[20..];
      match IndexOf(rest, 1)
      case None => Err(DelimiterMissing)
      case Some(marker) =>
        if exists i :: 0 <= i < marker && rest[i] != 0 then Err(Padding)
        else Ok(rest[marker + 1..])
  }

  /** EME-OAEP decoding of k bytes. */
  function Decode(hash: Hash, em: bytes): Result<bytes, OaepError>
    requires |em| >= 42
  {
    if em[0] != 0 then Err(LeadingByte)
    else
      match Unmask(hash, em[21..], em[1..21])
      case Err(e) => Err(e)
      case Ok(seed) =>
        match Unmask(hash, seed, em[21..])
        case Err(e) => Err(e)
        case Ok(db) => ParseBlock(hash, db)
  }

  // ---- the reference encoder (RFC 8017 section 7.1.1) ----------------------

  function Block(hash: Hash, k: nat, msg: bytes): (db: bytes)
    requires |msg| + 42 <= k
    ensures |db| == k - 21
  {
    hash([]) + Zeros(k - |msg| - 42) + [1] + msg
  }

  function Encode(hash: Hash, k: nat, seed: bytes, msg: bytes): (em: bytes)
    requires |seed| == 20 && |msg| + 42 <= k && k - 21 <= 20 * MAX_DIGESTS
    ensures |em| == k && em[0] == 0
  {
    var maskedDb := Unmask(hash, seed, Block(hash, k, msg)).value;
    var maskedSeed := Unmask(hash, maskedDb, seed).value;
    [0] + maskedSeed + maskedDb
  }

  /** The label hash, zeros, a one, and the message at the end: byte i of a data block. */
  function BlockByte(hash: Hash, k: nat, msg: bytes, i: nat): byte
    requires |msg| + 42 <= k && i < k - 21
  {
    if i < 20 then hash([])[i]
    else if i < k - 22 - |msg| then 0
    else if i == k - 22 - |msg| then 1
    else msg[i - (k - 21 - |msg|)]
  }

  /** An encoding byte by byte: a zero, the seed under one digest of the rest, and the data block
      under the digests of the seed and a counter. */
  lemma EncodedBytes(hash: Hash, k: nat, seed: bytes, msg: bytes, i: nat)
    requires |seed| == 20 && |msg| + 42 <= k && k - 21 <= 20 * MAX_DIGESTS && i < k - 21
    ensures var em := Encode(hash, k, seed, msg);
            && em[0] == 0 && i / 20 < Pow256(4)
            && em[21 + i] == XorByte(BlockByte(hash, k, msg, i), hash(seed + FromInt(i / 20, 4))[i % 20])
            && (i < 20 ==> em[1 + i] == XorByte(seed[i], hash(em[21..] + [0, 0, 0, 0])[i]))
  {
    var em, db := Encode(hash, k, seed, msg), Block(hash, k, msg);
    var maskedDb := Unmask(hash, seed, db).value;
    assert em[21..] == maskedDb && db[i] == BlockByte(hash, k, msg, i);
    MaskByte(hash, seed, k - 21, i / 20, i % 20);
    if i < 20 {
      ZeroCounter();
      MaskByte(hash, maskedDb, 20, 0, i);
    }
  }

  lemma ZeroCounter()
    ensures FromInt(0, 4) == [0, 0, 0, 0]
  {
    assert FromInt(0, 1) == [0] && FromInt(0, 2) == [0, 0] && FromInt(0, 3) == [0, 0, 0];
  }

  lemma ParseBlockExact(hash: Hash, db: bytes, msg: bytes)
    requires |db| >= 20
    ensures ParseBlock(hash, db) == Ok(msg)
       <==> |msg| + 42 <= |db| + 21 && db == Block(hash, |db| + 21, msg)
  {
    if |msg| + 42 <= |db| + 21 && db == Block(hash, |db| + 21, msg) {
      BlockParses(hash, db, msg);
    }
    if ParseBlock(hash, db) == Ok(msg) {
      ParsedBlock(hash, db, msg);
    }
  }

  lemma BlockParses(hash: Hash, db: bytes, msg: bytes)
    requires |db| >= 20 && |msg| + 42 <= |db| + 21 && db == Block(hash, |db| + 21, msg)
    ensures ParseBlock(hash, db) == Ok(msg)
  {
    var zeros := Zeros(|db| - |msg| - 21);
    assert db == hash([]) + (zeros + [1] + msg);
    assert db[..20] == hash([]) && db[20..] == zeros + [1] + msg;
    FirstOne(zeros, msg);
  }

  lemma ParsedBlock(hash: Hash, db: bytes, msg: bytes)
    requires |db| >= 20 && ParseBlock(hash, db) == Ok(msg)
    ensures |msg| + 42 <= |db| + 21 && db == Block(hash, |db| + 21, msg)
  {
    var rest := db[20..];
    var marker := IndexOf(rest, 1).value;
    assert rest[..marker] == Zeros(marker);
    assert rest == Zeros(marker) + [1] + msg;
    assert db == hash([]) + (Zeros(marker) + [1] + msg) == hash([]) + Zeros(marker) + [1] + msg;
  }

  lemma {:induction false} IndexUnique(data: bytes, b: byte, j: nat)
    requires j < |data| && data[j] == b && b !in data[..j]
    ensures IndexOf(data, b) == Some(j)
  {
    if j > 0 {
      assert data[0] in data[..j];
      assert data[1..][..j - 1] == data[..j][1..];
      IndexUnique(data[1..], b, j - 1);
    }
  }

  lemma FirstOne(zeros: bytes, msg: bytes)
    requires zeros == Zeros(|zeros|)
    ensures IndexOf(zeros + [1] + msg, 1) == Some(|zeros|)
    ensures (zeros + [1] + msg)[|zeros| + 1..] == msg
    ensures forall i :: 0 <= i < |zeros| ==> (zeros + [1] + msg)[i] == 0
  {
    assert (zeros + [1] + msg)[..|zeros|] == zeros;
    IndexUnique(zeros + [1] + msg, 1, |zeros|);
  }

  /** Decoding accepts exactly the encodings, and returns the encoded message: some seed
      explains every accepted block. */
  lemma DecodeExact(hash: Hash, em: bytes, msg: bytes)
    requires 42 <= |em| && |em| - 21 <= 20 * MAX_DIGESTS
    ensures Decode(hash, em) == Ok(msg)
       <==> |msg| + 42 <= |em| && exists seed :: |seed| == 20 && em == Encode(hash, |em|, seed, msg)
  {
    if Decode(hash, em) == Ok(msg) {
      var seed := DecodedSeed(hash, em, msg);
    }
    if |msg| + 42 <= |em| && exists seed :: |seed| == 20 && em == Encode(hash, |em|, seed, msg) {
      var seed :| |seed| == 20 && em == Encode(hash, |em|, seed, msg);
      DecodeInvertsEncode(hash, |em|, seed, msg);
    }
  }

  lemma DecodeInvertsEncode(hash: Hash, k: nat, seed: bytes, msg: bytes)
    requires |seed| == 20 && |msg| + 42 <= k && k - 21 <= 20 * MAX_DIGESTS
    ensures Decode(hash, Encode(hash, k, seed, msg)) == Ok(msg)
  {
    var db := Block(hash, k, msg);
    var em := Encode(hash, k, seed, msg);
    var maskedDb := Unmask(hash, seed, db).value;
    var maskedSeed := Unmask(hash, maskedDb, seed).value;
    assert em[1..21] == maskedSeed && em[21..] == maskedDb;
    UnmaskTwice(hash, maskedDb, seed);
    UnmaskTwice(hash, seed, db);
    ParseBlockExact(hash, db, msg);
  }

  lemma DecodedSeed(hash: Hash, em: bytes, msg: bytes) returns (seed: bytes)
    requires 42 <= |em| && |em| - 21 <= 20 * MAX_DIGESTS && Decode(hash, em) == Ok(msg)
    ensures |seed| == 20 && |msg| + 42 <= |em| && em == Encode(hash, |em|, seed, msg)
  {
    var maskedSeed, maskedDb := em[1..21], em[21..];
    seed := Unmask(hash, maskedDb, maskedSeed).value;
    var db := Unmask(hash, seed, maskedDb).value;
    ParseBlockExact(hash, db, msg);
    UnmaskTwice(hash, maskedDb, maskedSeed);
    UnmaskTwice(hash, seed, maskedDb);
    EncodeOf(hash, |em|, seed, msg, maskedSeed, maskedDb);
    ThreeParts(em);
  }

  lemma EncodeOf(hash: Hash, k: nat, seed: bytes, msg: bytes, maskedSeed: bytes, maskedDb: bytes)
    requires |seed| == 20 && |msg| + 42 <= k && k - 21 <= 20 * MAX_DIGESTS
    requires Unmask(hash, seed, Block(hash, k, msg)) == Ok(maskedDb) && Unmask(hash, maskedDb, seed) == Ok(maskedSeed)
    ensures Encode(hash, k, seed, msg) == [0] + maskedSeed + maskedDb
  {
  }

  lemma ThreeParts(em: bytes)
    requires |em| >= 21
    ensures em == [em[0]] + em[1..21] + em[21..]
  {
  }

  // ---- RSA -----------------------------------------------------------------

  function Power(x: nat, e: nat): nat
  {
    if e == 0 then 1 else x * Power(x, e - 1)
  }

  /** `(n.bit_length() + 7) // 8` */
  function ByteLength(n: nat): (k: nat)
    ensures n < Pow256(k) && (k > 0 ==> Pow256(k - 1) <= n)
  {
    if n == 0 then 0 else 1 + ByteLength(n / 256)
  }

  /** `pow(c, d, n).to_bytes(k, "big")` for the k bytes of n */
  function RsaToBytes(c: nat, key: Der.RsaKey): (em: bytes)
    requires key.n > 0
    ensures |em| == ByteLength(key.n)
  {
    FromInt(Power(c, key.d) % key.n, ByteLength(key.n))
  }

  /** Base64 decoding with validation, left abstract. */
  type Base64 = string -> Option<bytes>

  function Decrypt(hash: Hash, b64: Base64, cipherString: string, privateDer: bytes): Result<bytes, OaepError>
  {
    if |cipherString| < 3 || cipherString[..2] != "4." || '.' in cipherString[2..] then
      Err(UnsupportedCipherString)
    else
      match b64(cipherString[2..])
      case None => Err(InvalidEncoding)
      case Some(encoded) =>
        match Der.RsaPrivateNumbers(privateDer)
        case Err(e) => Err(BadKey(e))
        case Ok(key) =>
          if |encoded| != ByteLength(key.n) || ByteLength(key.n) < 42 then Err(InvalidLength)
          else Decode(hash, RsaToBytes(ToInt(encoded), key))
  }

  /** The exponents e and d undo each other on the residues modulo n. */
  ghost predicate IsKeyPair(n: nat, e: nat, d: nat)
  {
    n > 0 && forall m: nat :: m < n ==> Power(Power(m, e) % n, d) % n == m
  }

  lemma {:induction false} Pow256Mono(i: nat, j: nat)
    requires i <= j
    ensures Pow256(i) <= Pow256(j)
  {
    if i < j {
      Pow256Mono(i, j - 1);
    }
  }

  lemma {:induction false} DropZero(em: bytes)
    requires |em| > 0 && em[0] == 0
    ensures ToInt(em) < Pow256(|em| - 1)
  {
    assert em == [0] + em[1..];
    Der.LeadingZero(em[1..]);
  }

  /** A message encoded for a key, raised to its public exponent and written as a cipher string
      decrypts to itself, whatever the seed. */
  lemma DecryptInvertsEncrypt(hash: Hash, b64: Base64, text: string, der: bytes, key: Der.RsaKey, e: nat, seed: bytes,
                              msg: bytes)
    requires Der.RsaPrivateNumbers(der) == Ok(key) && IsKeyPair(key.n, e, key.d)
    requires |seed| == 20 && |msg| + 42 <= ByteLength(key.n) && ByteLength(key.n) - 21 <= 20 * MAX_DIGESTS
    requires |text| > 0 && '.' !in text
    requires var k := ByteLength(key.n);
             b64(text) == Some(FromInt(Power(ToInt(Encode(hash, k, seed, msg)), e) % key.n, k))
    ensures Decrypt(hash, b64, "4." + text, der) == Ok(msg)
  {
    var k := ByteLength(key.n);
    var em := Encode(hash, k, seed, msg);
    DropZero(em);
    var c := Power(ToInt(em), e) % key.n;
    ToIntOfFromInt(c, k);
    FromIntOfToInt(em);
    assert ("4." + text)[..2] == "4." && ("4." + text)[2..] == text;
    DecodeInvertsEncode(hash, k, seed, msg);
  }
}
