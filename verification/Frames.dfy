/** The WebSocket client of the window manager: frames read from a buffered socket that delivers
    them in arbitrary pieces (section 5.2 of RFC 6455). */
module Frames {
  import opened Wrappers
  import opened Bits

  /** What the socket does next. An empty chunk is the end of the stream. */
  datatype Event = Chunk(data: bytes) | Quiet

  /** `Idle`: nothing arrived while waiting for a frame; `ReadTimeout`: a started frame stalled. */
  datatype Fault = Idle | ReadTimeout | StreamEnd | ClosedByPeer

  datatype Conn = Conn(buf: bytes, net: seq<Event>, sent: bytes)

  datatype Out<T> = Out(conn: Conn, result: Result<T, Fault>)

  const TEXT: byte := 1
  const CLOSE: byte := 8
  const PING: byte := 9
  const PONG: byte := 10

  // ---- what is in the pipe -------------------------------------------------

  function Flow(net: seq<Event>): bytes
  {
    if |net| == 0 then [] else (if net[0].Chunk? then net[0].data else []) + Flow(net[1..])
  }

  /** All bytes not yet read. */
  function Content(c: Conn): bytes
  {
    c.buf + Flow(c.net)
  }

  function Bytes(net: seq<Event>): nat
  {
    if |net| == 0 then 0 else (if net[0].Chunk? then |net[0].data| else 0) + Bytes(net[1..])
  }

  /** How many bytes are not yet read. */
  function Size(c: Conn): nat
  {
    |c.buf| + Bytes(c.net)
  }

  lemma {:induction false} FlowBytes(net: seq<Event>)
    ensures |Flow(net)| == Bytes(net)
  {
    if |net| > 0 {
      FlowBytes(net[1..]);
    }
  }

  /** How many bytes arrive before the next pause or the end. */
  function Burst(net: seq<Event>): nat
  {
    if |net| == 0 || net[0].Quiet? || |net[0].data| == 0 then 0 else |net[0].data| + Burst(net[1..])
  }

  function Ready(c: Conn): nat
  {
    |c.buf| + Burst(c.net)
  }

  // ---- reading -------------------------------------------------------------

  /** Past the pause that a timeout waited through. */
  function Waited(c: Conn): Conn
  {
    if |c.net| == 0 then c else c.(net := c.net[1..])
  }

  function Read(c: Conn, n: nat): (r: Out<bytes>)
    ensures Size(r.conn) <= Size(c)
    ensures r.result.Ok? ==> |r.result.value| == n && n + Size(r.conn) == Size(c)
    ensures r.result.Err? ==> r.result.error == ReadTimeout || r.result.error == StreamEnd
    decreases |c.net|
  {
    if n <= |c.buf| then Out(c.(buf := c.buf[n..]), Ok(c.buf[..n]))
    else if |c.net| == 0 || c.net[0].Quiet? then Out(Waited(c), Err(ReadTimeout))
    else if |c.net[0].data| == 0 then Out(c, Err(StreamEnd))
    else Read(c.(buf := c.buf + c.net[0].data, net := c.net[1..]), n)
  }

  /** A read succeeds exactly when enough arrives before the next pause. */
  lemma {:induction false} ReadReady(c: Conn, n: nat)
    ensures var r := Read(c, n);
            && (r.result.Ok? <==> n <= Ready(c)) && (r.result.Ok? ==> Ready(r.conn) == Ready(c) - n)
    decreases |c.net|
  {
    if n > |c.buf| && |c.net| > 0 && c.net[0].Chunk? && |c.net[0].data| > 0 {
      ReadReady(c.(buf := c.buf + c.net[0].data, net := c.net[1..]), n);
    }
  }

  /** What is read comes off the front of what there is; a failed read loses nothing. */
  lemma {:induction false} ReadContent(c: Conn, n: nat)
    ensures var r := Read(c, n);
            Content(c) == (if r.result.Ok? then r.result.value else []) + Content(r.conn)
    decreases |c.net|
  {
    if n <= |c.buf| {
      assert c.buf[..n] + (c.buf[n..] + Flow(c.net)) == c.buf + Flow(c.net);
    } else if |c.net| > 0 && c.net[0].Chunk? && |c.net[0].data| > 0 {
      assert (c.buf + c.net[0].data) + Flow(c.net[1..]) == c.buf + Flow(c.net);
      ReadContent(c.(buf := c.buf + c.net[0].data, net := c.net[1..]), n);
    } else {
      if |c.net| > 0 && c.net[0].Quiet? {
        assert [] + Flow(c.net[1..]) == Flow(c.net[1..]);
      }
      assert Content(Read(c, n).conn) == [] + Content(Read(c, n).conn);
    }
  }

  function Mask(key: bytes, data: bytes): (m: bytes)
    requires |key| == 4
    ensures |m| == |data|
  {
    seq(|data|, i requires 0 <= i < |data| => XorByte(data[i], key[i % 4]))
  }

  lemma MaskInvolution(key: bytes, data: bytes)
    requires |key| == 4
    ensures Mask(key, Mask(key, data)) == data
  {
    forall i | 0 <= i < |data|
      ensures Mask(key, Mask(key, data))[i] == data[i]
    {
      XorCancel(data[i], key[i % 4]);
    }
  }

  datatype Message = Message(opcode: byte, payload: bytes)

  /** The extended length, for the two length codes that have one. */
  function ReadLength(c: Conn, code: nat): (r: Out<nat>)
    requires code < 128
    ensures Size(r.conn) <= Size(c)
  {
    if code == 126 then
      var x := Read(c, 2);
      Out(x.conn, if x.result.Ok? then Ok(ToInt(x.result.value)) else Err(x.result.error))
    else if code == 127 then
      var x := Read(c, 8);
      Out(x.conn, if x.result.Ok? then Ok(ToInt(x.result.value)) else Err(x.result.error))
    else Out(c, Ok(code))
  }

  function ReadPayload(c: Conn, masked: bool, n: nat): (r: Out<bytes>)
    ensures Size(r.conn) <= Size(c)
  {
    if masked then
      var key := Read(c, 4);
      if key.result.Err? then Out(key.conn, Err(key.result.error))
      else
        var x := Read(key.conn, n);
        Out(x.conn, if x.result.Ok? then Ok(Mask(key.result.value, x.result.value)) else Err(x.result.error))
    else Read(c, n)
  }

  /** What follows the two header bytes. */
  function ReadRest(c: Conn, b0: byte, b1: byte): (r: Out<Message>)
    ensures Size(r.conn) <= Size(c)
    ensures r.result.Err? ==> r.result.error == ReadTimeout || r.result.error == StreamEnd
  {
    var n := ReadLength(c, b1 % 128);
    if n.result.Err? then Out(n.conn, Err(n.result.error))
    else
      var p := ReadPayload(n.conn, b1 >= 128, n.result.value);
      Out(p.conn, if p.result.Ok? then Ok(Message(b0 % 16, p.result.value)) else Err(p.result.error))
  }

  function ReadMessage(c: Conn): (r: Out<Message>)
    ensures r.result.Ok? ==> Size(r.conn) + 2 <= Size(c)
  {
    var head := Read(c, 2);
    if head.result.Err? then Out(head.conn, Err(head.result.error))
    else ReadRest(head.conn, head.result.value[0], head.result.value[1])
  }

  /** The answer to a ping: a header for an empty payload, and then the payload. */
  function Pong(payload: bytes): bytes
  {
    [0x8A, 0] + payload
  }

  predicate SocketReady(c: Conn)
  {
    |c.net| > 0 && c.net[0].Chunk?
  }

  /** The next text message. The wait looks at the socket only, not at what is buffered. */
  function Recv(c: Conn): Out<bytes>
    decreases Size(c)
  {
    if !SocketReady(c) then Out(Waited(c), Err(Idle))
    else
      var m := ReadMessage(c);
      if m.result.Err? then Out(m.conn, Err(m.result.error))
      else
        var op, p := m.result.value.opcode, m.result.value.payload;
        if op == PING then Recv(m.conn.(sent := m.conn.sent + Pong(p)))
        else if op == TEXT then Out(m.conn, Ok(p))
        else if op == CLOSE then Out(m.conn, Err(ClosedByPeer))
        else Recv(m.conn)
  }

  // ---- writing -------------------------------------------------------------

  datatype Frame = Frame(opcode: byte, key: Option<bytes>, payload: bytes)

  ghost predicate Wellformed(f: Frame)
  {
    f.opcode < 16 && (f.key.Some? ==> |f.key.value| == 4) && |f.payload| < Pow256(8)
  }

  lemma Powers()
    ensures Pow256(2) == 0x1_0000
  {
    assert Pow256(1) == 256;
  }

  function LengthCode(n: nat): (code: byte)
  {
    if n < 126 then n else if n < 0x1_0000 then 126 else 127
  }

  function LengthBytes(n: nat): bytes
    requires n < Pow256(8)
  {
    Powers();
    if n < 126 then [] else if n < 0x1_0000 then FromInt(n, 2) else FromInt(n, 8)
  }

  function Header(f: Frame): (h: bytes)
    ensures |h| == 2
  {
    [128 + f.opcode % 16, LengthCode(|f.payload|) + if f.key.Some? then 128 else 0]
  }

  function Body(f: Frame): bytes
    requires Wellformed(f)
  {
    if f.key.Some? then f.key.value + Mask(f.key.value, f.payload) else f.payload
  }

  function Encode(f: Frame): (e: bytes)
    requires Wellformed(f)
  {
    Header(f) + LengthBytes(|f.payload|) + Body(f)
  }

  /** What `send_json` writes. */
  function Sent(data: bytes, key: bytes): bytes
    requires |key| == 4 && |data| < Pow256(8)
  {
    Encode(Frame(TEXT, Some(key), data))
  }

  // ---- one frame -----------------------------------------------------------

  /** Reading the first part of a stream. */
  lemma ReadStream(c: Conn, a: bytes, rest: bytes, missing: bytes)
    requires Content(c) + missing == a + rest
    ensures var r := Read(c, |a|);
            && (r.result.Ok? <==> |a| <= Ready(c))
            && (r.result.Ok? ==> r.result.value == a && Content(r.conn) + missing == rest
                                 && Ready(r.conn) == Ready(c) - |a|)
  {
    var r := Read(c, |a|);
    ReadReady(c, |a|);
    ReadContent(c, |a|);
    if r.result.Ok? {
      assert r.result.value + (Content(r.conn) + missing) == a + rest;
      SplitAt(r.result.value, Content(r.conn) + missing, a, rest);
    }
  }

  lemma SplitAt(a: bytes, x: bytes, b: bytes, y: bytes)
    requires |a| == |b| && a + x == b + y
    ensures a == b && x == y
  {
    assert a == (a + x)[..|a|] && b == (b + y)[..|b|];
    assert x == (a + x)[|a|..] && y == (b + y)[|b|..];
  }

  lemma ReadLengthStream(c: Conn, n: nat, rest: bytes, missing: bytes)
    requires n < Pow256(8) && Content(c) + missing == LengthBytes(n) + rest
    ensures var r := ReadLength(c, LengthCode(n));
            && (r.result.Ok? <==> |LengthBytes(n)| <= Ready(c))
            && (r.result.Ok? ==> r.result.value == n && Content(r.conn) + missing == rest
                                 && Ready(r.conn) == Ready(c) - |LengthBytes(n)|)
  {
    Powers();
    if n >= 126 {
      var k := if n < 0x1_0000 then 2 else 8;
      ToIntOfFromInt(n, k);
      ReadStream(c, FromInt(n, k), rest, missing);
    } else {
      assert Content(c) + missing == rest;
    }
  }

  lemma ReadPayloadStream(c: Conn, f: Frame, rest: bytes, missing: bytes)
    requires Wellformed(f) && Content(c) + missing == Body(f) + rest
    ensures var r := ReadPayload(c, f.key.Some?, |f.payload|);
            && (r.result.Ok? <==> |Body(f)| <= Ready(c))
            && (r.result.Ok? ==> r.result.value == f.payload && Content(r.conn) + missing == rest
                                 && Ready(r.conn) == Ready(c) - |Body(f)|)
  {
    if f.key.Some? {
      var key, data := f.key.value, Mask(f.key.value, f.payload);
      assert Content(c) + missing == key + (data + rest);
      ReadStream(c, key, data + rest, missing);
      if Read(c, 4).result.Ok? {
        ReadStream(Read(c, 4).conn, data, rest, missing);
        MaskInvolution(key, f.payload);
      }
    } else {
      ReadStream(c, f.payload, rest, missing);
    }
  }

  /** A frame is read back exactly when all of it arrives before the next pause, whatever the
      pieces it arrives in, in all three length forms, masked or not. */
  lemma FrameRoundTrip(c: Conn, f: Frame, rest: bytes, missing: bytes)
    requires Wellformed(f) && Content(c) + missing == Encode(f) + rest
    ensures var r := ReadMessage(c);
            && (r.result.Ok? <==> |Encode(f)| <= Ready(c))
            && (r.result.Ok? ==> r.result.value == Message(f.opcode, f.payload) && Content(r.conn) + missing == rest
                                 && Ready(r.conn) == Ready(c) - |Encode(f)|)
  {
    var len, body := LengthBytes(|f.payload|), Body(f);
    assert Content(c) + missing == Header(f) + (len + (body + rest));
    ReadStream(c, Header(f), len + (body + rest), missing);
    if Read(c, 2).result.Ok? {
      var c1 := Read(c, 2).conn;
      HeaderFields(f);
      ReadLengthStream(c1, |f.payload|, body + rest, missing);
      var n := ReadLength(c1, LengthCode(|f.payload|));
      if n.result.Ok? {
        ReadPayloadStream(n.conn, f, rest, missing);
      }
    }
  }

  lemma HeaderFields(f: Frame)
    requires Wellformed(f)
    ensures Header(f)[0] % 16 == f.opcode && Header(f)[1] % 128 == LengthCode(|f.payload|)
    ensures Header(f)[1] >= 128 <==> f.key.Some?
  {
  }

  /** A pending text frame is returned exactly when the socket has something to read right now,
      even if the frame is buffered already, and the rest of it arrives without a pause. */
  lemma DeliveredExact(c: Conn, f: Frame, rest: bytes, missing: bytes)
    requires Wellformed(f) && f.opcode == TEXT && Content(c) + missing == Encode(f) + rest
    ensures Recv(c).result == Ok(f.payload) <==> SocketReady(c) && |Encode(f)| <= Ready(c)
  {
    FrameRoundTrip(c, f, rest, missing);
  }

  /** When a started frame stalls, what was read of it is lost, so that the next call takes the
      middle of the frame for a header, exactly when its two header bytes had arrived. */
  lemma StallLosesExact(c: Conn, f: Frame, rest: bytes, missing: bytes)
    requires Wellformed(f) && f.opcode == TEXT && Content(c) + missing == Encode(f) + rest
    requires Recv(c).result == Err(ReadTimeout)
    ensures Content(Recv(c).conn) == Content(c) <==> Ready(c) < 2
  {
    FrameRoundTrip(c, f, rest, missing);
    ReadContent(c, 2);
    ReadReady(c, 2);
    if Ready(c) >= 2 {
      assert Size(Recv(c).conn) <= Size(Read(c, 2).conn) < Size(c);
      FlowBytes(Recv(c).conn.net);
      FlowBytes(c.net);
    }
  }

  /** The answer to a ping is one frame exactly when the ping was empty. */
  lemma PongExact(payload: bytes)
    ensures (exists f :: Wellformed(f) && f.opcode == PONG && Encode(f) == Pong(payload)) <==> payload == []
  {
    if payload == [] {
      assert Encode(Frame(PONG, None, [])) == Pong([]);
      assert Wellformed(Frame(PONG, None, []));
    } else if f :| Wellformed(f) && f.opcode == PONG && Encode(f) == Pong(payload) {
      PongIsShort(f, payload);
    }
  }

  lemma PongIsShort(f: Frame, payload: bytes)
    requires Wellformed(f) && Encode(f) == Pong(payload)
    ensures payload == []
  {
    assert Header(f)[1] == Encode(f)[1] == 0;
    assert |Encode(f)| == 2;
  }

  // ---- the client in place -------------------------------------------------

  class CDPWs {
    var buf: bytes
    var net: seq<Event>
    var sent: bytes

    function View(): Conn
      reads this
    {
      Conn(buf, net, sent)
    }

    /** After the handshake: what followed its header is buffered. */
    constructor (buf: bytes, net: seq<Event>)
      ensures View() == Conn(buf, net, [])
    {
      this.buf, this.net, sent := buf, net, [];
    }

    method ReadBytes(n: nat) returns (r: Result<bytes, Fault>)
      modifies this`buf, this`net
      ensures Out(View(), r) == Read(old(View()), n)
    {
      while |buf| < n
        invariant Read(View(), n) == Read(old(View()), n)
        decreases |net|
      {
        if |net| == 0 {
          return Err(ReadTimeout);
        }
        var e := net[0];
        if e.Chunk? && |e.data| == 0 {
          return Err(StreamEnd);
        }
        net := net[1..];
        if e.Quiet? {
          return Err(ReadTimeout);
        }
        buf := buf + e.data;
      }
      r := Ok(buf[..n]);
      buf := buf[n..];
    }

    method ReadFrame() returns (r: Result<Message, Fault>)
      modifies this`buf, this`net
      ensures Out(View(), r) == ReadMessage(old(View()))
    {
      var head := ReadBytes(2);
      if head.Err? {
        return Err(head.error);
      }
      var n: nat := head.value[1] % 128;
      if n == 126 || n == 127 {
        var ext := ReadBytes(if n == 126 then 2 else 8);
        if ext.Err? {
          return Err(ext.error);
        }
        n := ToInt(ext.value);
      }
      if head.value[1] >= 128 {
        var key := ReadBytes(4);
        if key.Err? {
          return Err(key.error);
        }
        var data := ReadBytes(n);
        return if data.Ok? then Ok(Message(head.value[0] % 16, Mask(key.value, data.value))) else Err(data.error);
      }
      var data := ReadBytes(n);
      return if data.Ok? then Ok(Message(head.value[0] % 16, data.value)) else Err(data.error);
    }

    method RecvJson() returns (r: Result<bytes, Fault>)
      modifies this
      ensures Out(View(), r) == Recv(old(View()))
    {
      while true
        invariant Recv(View()) == Recv(old(View()))
        decreases Size(View())
      {
        if |net| == 0 {
          return Err(Idle);
        }
        if net[0].Quiet? {
          net := net[1..];
          return Err(Idle);
        }
        var m := ReadFrame();
        if m.Err? {
          return Err(m.error);
        }
        if m.value.opcode == PING {
          sent := sent + Pong(m.value.payload);
        } else if m.value.opcode == TEXT {
          return Ok(m.value.payload);
        } else if m.value.opcode == CLOSE {
          return Err(ClosedByPeer);
        }
      }
    }

    method SendJson(data: bytes, key: bytes)
      requires |key| == 4 && |data| < Pow256(8)
      modifies this`sent
      ensures View() == old(View()).(sent := old(sent) + Sent(data, key))
    {
      Powers();
      var n := |data|;
      var header: bytes;
      if n < 126 {
        header := [0x81, 0x80 + n];
      } else if n < 65536 {
        header := [0x81, 0x80 + 126] + FromInt(n, 2);
      } else {
        header := [0x81, 0x80 + 127] + FromInt(n, 8);
      }
      assert header == Header(Frame(TEXT, Some(key), data)) + LengthBytes(n);
      assert header + (key + Mask(key, data)) == (header + key) + Mask(key, data);
      sent := sent + (header + key + Mask(key, data));
    }
  }
}
