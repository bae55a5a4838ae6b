/** Frames byte by byte, as section 5.2 of RFC 6455 lays them out: what is written, and what is
    read from any bytes. */
module FrameBytes {
  import opened Wrappers
  import opened Bits
  import opened Frames

  // ---- the length ----------------------------------------------------------

  /** The two bytes from i on, as a number. */
  function Two(w: bytes, i: nat): nat
    requires i + 2 <= |w|
  {
    w[i] as int * 256 + w[i + 1]
  }

  /** The eight bytes from i on, as a number. */
  function Eight(w: bytes, i: nat): nat
    requires i + 8 <= |w|
  {
    256 * (256 * (256 * (256 * (256 * (256 * Two(w, i) + w[i + 2]) + w[i + 3]) + w[i + 4]) + w[i + 5]) + w[i + 6])
    + w[i + 7]
  }

  lemma ToIntFront(b: bytes, n: nat)
    requires 0 < n <= |b|
    ensures ToInt(b[..n]) == ToInt(b[..n - 1]) * 256 + b[n - 1]
  {
    assert b[..n][..n - 1] == b[..n - 1];
  }

  lemma TwoIs(w: bytes, i: nat)
    requires i + 2 <= |w|
    ensures ToInt(w[i..i + 2]) == Two(w, i)
  {
    var b := w[i..i + 2];
    ToIntFront(b, 1);
    ToIntFront(b, 2);
    assert b[..0] == [] && b[..2] == b;
  }

  lemma EightIs(w: bytes, i: nat)
    requires i + 8 <= |w|
    ensures ToInt(w[i..i + 8]) == Eight(w, i)
  {
    var b := w[i..i + 8];
    TwoIs(b, 0);
    assert b[0..2] == b[..2];
    ToIntFront(b, 3);
    ToIntFront(b, 4);
    ToIntFront(b, 5);
    ToIntFront(b, 6);
    ToIntFront(b, 7);
    ToIntFront(b, 8);
    assert b[..8] == b;
  }

  /** The bytes before the masking key. */
  function HeaderSize(n: nat): nat
  {
    if n < 126 then 2 else if n < 65536 then 4 else 10
  }

  /** The second byte and what follows it spell the length in the shortest of the three forms. */
  predicate Spells(w: bytes, flag: byte, n: nat)
  {
    && |w| >= HeaderSize(n)
    && (n < 126 ==> w[1] == flag + n)
    && (126 <= n < 65536 ==> w[1] == flag + 126 && Two(w, 2) == n)
    && (65536 <= n ==> w[1] == flag + 127 && Eight(w, 2) == n)
  }

  // ---- writing -------------------------------------------------------------

  lemma LengthSpelled(n: nat, w: bytes, flag: byte)
    requires n < Pow256(8) && flag < 129 && |w| >= 2 + |LengthBytes(n)|
    requires w[1] == LengthCode(n) + flag && w[2..2 + |LengthBytes(n)|] == LengthBytes(n)
    ensures |LengthBytes(n)| == HeaderSize(n) - 2 && Spells(w, flag, n)
  {
    Powers();
    if 126 <= n {
      ToIntOfFromInt(n, HeaderSize(n) - 2);
      if n < 65536 {
        TwoIs(w, 2);
      } else {
        EightIs(w, 2);
      }
    }
  }

  /** Four parts in a row. */
  lemma InParts(w: bytes, a: bytes, b: bytes, c: bytes, d: bytes)
    requires w == a + b + (c + d)
    ensures |w| == |a| + |b| + |c| + |d| && w[..|a|] == a && w[|a|..|a| + |b|] == b
    ensures w[|a| + |b|..|a| + |b| + |c|] == c && w[|a| + |b| + |c|..] == d
  {
  }

  /** A final text frame, the shortest form of its length, the key, and the data under the key. */
  lemma SentBytes(data: bytes, key: bytes)
    requires |key| == 4 && |data| < Pow256(8)
    ensures var w, h := Sent(data, key), HeaderSize(|data|);
            && |w| == h + 4 + |data| && w[0] == 0x81 && Spells(w, 0x80, |data|)
            && w[h..h + 4] == key && Under(key, data, w[h + 4..])
  {
    var w, n := Sent(data, key), |data|;
    var head := Header(Frame(TEXT, Some(key), data));
    InParts(w, head, LengthBytes(n), key, Mask(key, data));
    assert w[0] == w[..2][0] == 0x81 && w[1] == w[..2][1] == LengthCode(n) + 0x80;
    LengthSpelled(n, w, 0x80);
    MaskUnder(key, data);
  }

  /** The data with the key laid over it again and again. */
  ghost predicate Under(key: bytes, data: bytes, masked: bytes)
    requires |key| == 4
  {
    |masked| == |data| && forall i :: 0 <= i < |data| ==> masked[i] == XorByte(data[i], key[i % 4])
  }

  lemma MaskUnder(key: bytes, data: bytes)
    requires |key| == 4
    ensures Under(key, data, Mask(key, data))
  {
  }

  // ---- reading -------------------------------------------------------------

  /** Where the length ends, for the code in the second byte. */
  function LengthEnd(code: nat): nat
  {
    if code == 126 then 4 else if code == 127 then 10 else 2
  }

  function LengthAt(w: bytes, code: nat): nat
    requires LengthEnd(code) <= |w|
  {
    if code == 126 then Two(w, 2) else if code == 127 then Eight(w, 2) else code
  }

  /** What a frame carries, unmasked or under the key that stands at i. */
  ghost predicate Carries(w: bytes, masked: bool, i: nat, p: bytes)
  {
    if masked then i + 4 + |p| <= |w| && Under(w[i..i + 4], w[i + 4..i + 4 + |p|], p)
    else i + |p| <= |w| && p == w[i..i + |p|]
  }

  /** The message stands at the front of w and ends before `end`. */
  ghost predicate Parses(w: bytes, m: Message, end: nat)
  {
    && 2 <= |w| && m.opcode == w[0] % 16
    && var code, masked := w[1] % 128, w[1] >= 128;
       var h := LengthEnd(code);
       && h <= |w| && |m.payload| == LengthAt(w, code) && Carries(w, masked, h, m.payload)
       && end == h + (if masked then 4 else 0) + |m.payload|
  }

  /** A message that is read is the one at the front of what there was, and what is left follows
      it. This holds of every way the bytes arrive and of every way the length is spelled. */
  lemma ReadParses(c: Conn)
    requires ReadMessage(c).result.Ok?
    ensures var r := ReadMessage(c);
            exists end: nat :: Parses(Content(c), r.result.value, end) && end <= |Content(c)|
                               && Content(r.conn) == Content(c)[end..]
  {
    var w := Content(c);
    assert w[0..] == w;
    var c1 := ReadSome(c, w, 0, 2);
    assert Read(c, 2).result.value == w[0..2] && w[0..2][0] == w[0] && w[0..2][1] == w[1];
    MessageIs(c);
    var c2 := LengthRead(c1, w, w[1] % 128);
    var end := PayloadRead(c2, w, LengthEnd(w[1] % 128), w[1] >= 128, LengthAt(w, w[1] % 128));
    assert Parses(w, ReadMessage(c).result.value, end);
  }

  lemma MessageIs(c: Conn)
    requires ReadMessage(c).result.Ok?
    ensures Read(c, 2).result.Ok?
    ensures var head := Read(c, 2);
            var n := ReadLength(head.conn, head.result.value[1] % 128);
            && n.result.Ok?
            && var p := ReadPayload(n.conn, head.result.value[1] >= 128, n.result.value);
               p.result.Ok? && ReadMessage(c) == Out(p.conn, Ok(Message(head.result.value[0] % 16, p.result.value)))
  {
  }

  lemma PayloadRead(c: Conn, w: bytes, i: nat, masked: bool, n: nat) returns (end: nat)
    requires i <= |w| && Content(c) == w[i..] && ReadPayload(c, masked, n).result.Ok?
    ensures var r := ReadPayload(c, masked, n);
            && end == i + (if masked then 4 else 0) + n && end <= |w| && Content(r.conn) == w[end..]
            && |r.result.value| == n && Carries(w, masked, i, r.result.value)
  {
    if masked {
      var d := ReadSome(c, w, i, 4);
      var d2 := ReadSome(d, w, i + 4, n);
      MaskUnder(w[i..i + 4], w[i + 4..i + 4 + n]);
      end := i + 4 + n;
    } else {
      var d := ReadSome(c, w, i, n);
      end := i + n;
    }
  }

  /** Reading n bytes of a stream that is w from i on. */
  lemma ReadSome(c: Conn, w: bytes, i: nat, n: nat) returns (d: Conn)
    requires i <= |w| && Content(c) == w[i..] && Read(c, n).result.Ok?
    ensures i + n <= |w| && Read(c, n) == Out(d, Ok(w[i..i + n])) && Content(d) == w[i + n..]
  {
    var r := Read(c, n);
    d := r.conn;
    ReadContent(c, n);
    assert w[i..] == r.result.value + Content(d);
    assert w[i..][..n] == r.result.value && w[i..][n..] == Content(d);
    assert w[i..][..n] == w[i..i + n] && w[i..][n..] == w[i + n..];
  }

  lemma LengthRead(c: Conn, w: bytes, code: nat) returns (d: Conn)
    requires code < 128 && 2 <= |w| && Content(c) == w[2..] && ReadLength(c, code).result.Ok?
    ensures LengthEnd(code) <= |w| && ReadLength(c, code) == Out(d, Ok(LengthAt(w, code)))
    ensures Content(d) == w[LengthEnd(code)..]
  {
    if code == 126 {
      d := ReadSome(c, w, 2, 2);
      TwoIs(w, 2);
    } else if code == 127 {
      d := ReadSome(c, w, 2, 8);
      EightIs(w, 2);
    } else {
      d := c;
    }
  }

  /** By the number of its opcode: a text is returned, a close ends the stream, a ping is answered,
      and anything else is passed over. */
  lemma ByOpcode(c: Conn)
    requires SocketReady(c) && ReadMessage(c).result.Ok?
    ensures var m := ReadMessage(c);
            var p := m.result.value.payload;
            match m.result.value.opcode
            case 1 => Recv(c) == Out(m.conn, Ok(p))
            case 8 => Recv(c) == Out(m.conn, Err(ClosedByPeer))
            case 9 => Recv(c) == Recv(m.conn.(sent := m.conn.sent + ([0x8A, 0] + p)))
            case _ => Recv(c) == Recv(m.conn)
  {
  }
}
