/** Streams of frames: what a caller receives however the stream is cut into pieces, and when
    something is lost. */
module FrameStreams {
  import opened Wrappers
  import opened Bits
  import opened Frames

  // ---- streams -------------------------------------------------------------

  ghost predicate AllWellformed(frames: seq<Frame>)
  {
    forall i :: 0 <= i < |frames| ==> Wellformed(frames[i])
  }

  function Stream(frames: seq<Frame>): bytes
    requires AllWellformed(frames)
  {
    if |frames| == 0 then [] else Encode(frames[0]) + Stream(frames[1..])
  }

  /** The text payloads up to a close frame. */
  function Texts(frames: seq<Frame>): seq<bytes>
  {
    if |frames| == 0 || frames[0].opcode == CLOSE then []
    else (if frames[0].opcode == TEXT then [frames[0].payload] else []) + Texts(frames[1..])
  }

  /** What a caller receives that goes on after idle waits and stops at any other error. */
  function Received(c: Conn, calls: nat): seq<bytes>
    decreases calls, 0
  {
    if calls == 0 then [] else ReceivedAfter(Recv(c), calls - 1)
  }

  function ReceivedAfter(r: Out<bytes>, calls: nat): seq<bytes>
    decreases calls, 1
  {
    match r.result
    case Ok(p) => [p] + Received(r.conn, calls)
    case Err(Idle) => Received(r.conn, calls)
    case Err(_) => []
  }

  /** What is left to read are the frames from k on, and they hold the texts after p. */
  ghost predicate Resumes(frames: seq<Frame>, k: nat, p: seq<bytes>, c: Conn, missing: bytes)
    requires AllWellformed(frames)
  {
    k <= |frames| && Texts(frames) == p + Texts(frames[k..]) && Content(c) + missing == Stream(frames[k..])
  }

  /** A call returned the next text, or nothing and no text is lost. */
  ghost predicate Follows(frames: seq<Frame>, k: nat, r: Out<bytes>, missing: bytes)
    requires AllWellformed(frames)
  {
    && (r.result.Ok? ==> Resumes(frames, k, [r.result.value], r.conn, missing))
    && (r.result == Err(Idle) ==> Resumes(frames, k, [], r.conn, missing))
  }

  lemma SkipOne(frames: seq<Frame>, k: nat, r: Out<bytes>, missing: bytes)
    requires AllWellformed(frames) && |frames| > 0 && Texts(frames) == Texts(frames[1..])
    requires Follows(frames[1..], k, r, missing)
    ensures Follows(frames, k + 1, r, missing)
  {
    assert k <= |frames[1..]| ==> frames[1..][k..] == frames[k + 1..];
  }

  /** The connection after a frame that is no text and no close. */
  function After(c: Conn): Conn
    requires ReadMessage(c).result.Ok?
  {
    var m := ReadMessage(c);
    if m.result.value.opcode == PING then m.conn.(sent := m.conn.sent + Pong(m.result.value.payload)) else m.conn
  }

  lemma AfterLess(c: Conn)
    requires ReadMessage(c).result.Ok?
    ensures Size(After(c)) < Size(c)
  {
    assert Size(After(c)) == Size(ReadMessage(c).conn);
  }

  lemma FirstFrame(c: Conn, f: Frame, rest: bytes, missing: bytes)
    requires Wellformed(f) && Content(c) + missing == Encode(f) + rest && ReadMessage(c).result.Ok?
    ensures ReadMessage(c).result.value == Message(f.opcode, f.payload)
    ensures Content(After(c)) + missing == rest && Size(After(c)) < Size(c)
  {
    FrameRoundTrip(c, f, rest, missing);
    AfterContent(c);
    AfterLess(c);
  }

  lemma ReadFirst(c: Conn, frames: seq<Frame>, missing: bytes)
    requires AllWellformed(frames) && Content(c) + missing == Stream(frames) && ReadMessage(c).result.Ok?
    ensures |frames| > 0 && ReadMessage(c).result.value == Message(frames[0].opcode, frames[0].payload)
    ensures Content(After(c)) + missing == Stream(frames[1..]) && Size(After(c)) < Size(c)
  {
    SomeFrame(c, frames, missing);
    FirstFrame(c, frames[0], Stream(frames[1..]), missing);
  }

  lemma SomeFrame(c: Conn, frames: seq<Frame>, missing: bytes)
    requires AllWellformed(frames) && Content(c) + missing == Stream(frames) && ReadMessage(c).result.Ok?
    ensures |frames| > 0
  {
    if |frames| == 0 {
      NoFrames(c, missing);
    }
  }

  lemma NoFrames(c: Conn, missing: bytes)
    requires Content(c) + missing == []
    ensures Size(c) == 0
  {
    assert |Content(c)| == 0;
    FlowBytes(c.net);
  }

  lemma AfterContent(c: Conn)
    requires ReadMessage(c).result.Ok?
    ensures Content(After(c)) == Content(ReadMessage(c).conn)
  {
  }

  lemma TextsUnfold(frames: seq<Frame>)
    requires |frames| > 0
    ensures frames[0].opcode == TEXT ==> Texts(frames) == [frames[0].payload] + Texts(frames[1..])
    ensures frames[0].opcode != TEXT && frames[0].opcode != CLOSE ==> Texts(frames) == Texts(frames[1..])
  {
    assert [] + Texts(frames[1..]) == Texts(frames[1..]);
  }

  lemma RecvIdle(c: Conn, frames: seq<Frame>, missing: bytes)
    requires AllWellformed(frames) && Content(c) + missing == Stream(frames) && !SocketReady(c)
    ensures Follows(frames, 0, Recv(c), missing)
  {
    assert Content(Waited(c)) == Content(c) && frames[0..] == frames && [] + Texts(frames) == Texts(frames);
  }

  lemma RecvUnfolds(c: Conn)
    requires SocketReady(c)
    ensures ReadMessage(c).result.Err? ==> Recv(c).result.Err? && Recv(c).result.error != Idle
    ensures ReadMessage(c).result.Ok? ==>
              Recv(c) == if ReadMessage(c).result.value.opcode == TEXT then
                           Out(ReadMessage(c).conn, Ok(ReadMessage(c).result.value.payload))
                         else if ReadMessage(c).result.value.opcode == CLOSE then
                           Out(ReadMessage(c).conn, Err(ClosedByPeer))
                         else Recv(After(c))
  {
    assert ReadMessage(c).result.Err? ==>
        ReadMessage(c).result.error == ReadTimeout || ReadMessage(c).result.error == StreamEnd;
  }

  lemma {:induction false} RecvStream(c: Conn, frames: seq<Frame>, missing: bytes) returns (k: nat)
    requires AllWellformed(frames) && Content(c) + missing == Stream(frames)
    ensures Follows(frames, k, Recv(c), missing)
    decreases Size(c)
  {
    k := 0;
    if !SocketReady(c) {
      RecvIdle(c, frames, missing);
      return;
    }
    RecvUnfolds(c);
    if ReadMessage(c).result.Ok? {
      ReadFirst(c, frames, missing);
      TextsUnfold(frames);
      if frames[0].opcode == TEXT {
        return 1;
      }
      if frames[0].opcode != CLOSE {
        var rest := RecvStream(After(c), frames[1..], missing);
        SkipOne(frames, rest, Recv(After(c)), missing);
        return rest + 1;
      }
    }
  }

  /** However a stream of frames is cut into pieces, and however much of it never arrives, what is
      received is a prefix of the text payloads sent: unaltered and in order. */
  lemma {:induction false} ReceivedPrefix(c: Conn, frames: seq<Frame>, missing: bytes, calls: nat)
    requires AllWellformed(frames) && Content(c) + missing == Stream(frames)
    ensures Received(c, calls) <= Texts(frames)
    decreases calls, 1
  {
    if calls > 0 {
      var k := RecvStream(c, frames, missing);
      CallPrefix(c, frames, k, missing, calls);
    }
  }

  lemma {:induction false} CallPrefix(c: Conn, frames: seq<Frame>, k: nat, missing: bytes, calls: nat)
    requires AllWellformed(frames) && calls > 0 && Follows(frames, k, Recv(c), missing)
    ensures Received(c, calls) <= Texts(frames)
    decreases calls, 0
  {
    PrefixAfter(Recv(c), frames, k, missing, calls - 1);
    PrefixUnfolds(c, calls, Texts(frames));
  }

  lemma ReceivedUnfolds(c: Conn, calls: nat)
    requires calls > 0
    ensures Received(c, calls) == ReceivedAfter(Recv(c), calls - 1)
  {
  }

  lemma PrefixUnfolds(c: Conn, calls: nat, texts: seq<bytes>)
    requires calls > 0 && ReceivedAfter(Recv(c), calls - 1) <= texts
    ensures Received(c, calls) <= texts
  {
    ReceivedUnfolds(c, calls);
  }

  lemma {:induction false} PrefixAfter(r: Out<bytes>, frames: seq<Frame>, k: nat, missing: bytes, calls: nat)
    requires AllWellformed(frames) && Follows(frames, k, r, missing)
    ensures ReceivedAfter(r, calls) <= Texts(frames)
    decreases calls, 2
  {
    if r.result.Ok? {
      ReceivedPrefix(r.conn, frames[k..], missing, calls);
    } else if r.result == Err(Idle) {
      ReceivedPrefix(r.conn, frames[k..], missing, calls);
      assert [] + Texts(frames[k..]) == Texts(frames[k..]);
    }
  }

  // ---- delivery ------------------------------------------------------------

  /** The socket stays readable: after its last byte comes the end of the stream, and nowhere before. */
  predicate Ends(net: seq<Event>)
  {
    |net| > 0 && if |net| == 1 then net[0] == Chunk([]) else net[0] != Chunk([]) && Ends(net[1..])
  }

  function Pauses(net: seq<Event>): nat
  {
    if |net| == 0 then 0 else (if net[0].Quiet? then 1 else 0) + Pauses(net[1..])
  }

  /** A call that gives up in the middle of a frame, with the two header bytes gone. */
  predicate Tears(c: Conn)
    decreases Size(c)
  {
    SocketReady(c) &&
    if ReadMessage(c).result.Err? then Ready(c) >= 2
    else
      && ReadMessage(c).result.value.opcode != TEXT && ReadMessage(c).result.value.opcode != CLOSE
      && Tears(After(c))
  }

  /** What one call gives its caller. */
  function Got(r: Out<bytes>): seq<bytes>
  {
    if r.result.Ok? then [r.result.value] else []
  }

  /** What the window manager's loop receives: it reports every error and goes on with the same
      socket. */
  function Heard(c: Conn, calls: nat): seq<bytes>
    decreases calls
  {
    if calls == 0 then []
    else Got(Recv(c)) + Heard(Recv(c).conn, calls - 1)
  }

  predicate Torn(c: Conn, calls: nat)
    decreases calls
  {
    calls > 0 && (Tears(c) || Torn(Recv(c).conn, calls - 1))
  }

  /** All text payloads, those after a close frame included. */
  function AllTexts(frames: seq<Frame>): seq<bytes>
  {
    if |frames| == 0 then []
    else (if frames[0].opcode == TEXT then [frames[0].payload] else []) + AllTexts(frames[1..])
  }

  /** After a call that tears nothing the frames from k on are left, and they hold the other texts. */
  ghost predicate Proceeds(frames: seq<Frame>, k: nat, r: Out<bytes>, missing: bytes)
    requires AllWellformed(frames)
  {
    && k <= |frames| && Content(r.conn) + missing == Stream(frames[k..])
    && AllTexts(frames) == Got(r) + AllTexts(frames[k..])
  }

  lemma ProceedsOne(frames: seq<Frame>, k: nat, r: Out<bytes>, missing: bytes)
    requires AllWellformed(frames) && |frames| > 0 && frames[0].opcode != TEXT
    requires Proceeds(frames[1..], k, r, missing)
    ensures Proceeds(frames, k + 1, r, missing)
  {
    assert frames[1..][k..] == frames[k + 1..];
    assert [] + AllTexts(frames[1..]) == AllTexts(frames[1..]);
  }

  lemma TearsUnfolds(c: Conn)
    requires SocketReady(c)
    ensures Tears(c) == if ReadMessage(c).result.Err? then Ready(c) >= 2
                        else
                          && ReadMessage(c).result.value.opcode != TEXT
                          && ReadMessage(c).result.value.opcode != CLOSE
                          && Tears(After(c))
  {
  }

  /** A message that fails before its header takes nothing from the stream. */
  lemma FailsEarly(c: Conn)
    requires SocketReady(c) && ReadMessage(c).result.Err? && Ready(c) < 2
    ensures Read(c, 2).result.Err? && Recv(c) == Out(Read(c, 2).conn, Err(Read(c, 2).result.error))
  {
    ReadReady(c, 2);
  }

  // ---- the socket under a call ---------------------------------------------

  /** What is left on the socket, and whether something is. */
  ghost predicate Narrows(c: Conn, d: Conn)
  {
    Ends(c.net) ==> Ends(d.net) && Pauses(d.net) <= Pauses(c.net)
  }

  lemma {:induction false} ReadNarrows(c: Conn, n: nat)
    ensures Narrows(c, Read(c, n).conn)
    ensures Ends(c.net) && Read(c, n).result == Err(ReadTimeout) ==> Pauses(Read(c, n).conn.net) < Pauses(c.net)
    ensures Ends(c.net) && Read(c, n).result == Err(StreamEnd) ==> |Content(c)| == Ready(c)
    decreases |c.net|
  {
    if n > |c.buf| && |c.net| > 0 && c.net[0].Chunk? && |c.net[0].data| > 0 {
      ReadNarrows(c.(buf := c.buf + c.net[0].data, net := c.net[1..]), n);
    } else if |c.net| > 1 {
      assert Ends(c.net) ==> Ends(c.net[1..]);
    } else if |c.net| == 1 {
      assert c.net[1..] == [] && Flow(c.net[1..]) == [];
    }
  }

  lemma MessageNarrows(c: Conn)
    ensures Narrows(c, ReadMessage(c).conn)
  {
    var head := Read(c, 2);
    ReadNarrows(c, 2);
    if head.result.Ok? {
      var b1 := head.result.value[1];
      ReadNarrows(head.conn, 2);
      ReadNarrows(head.conn, 8);
      var n := ReadLength(head.conn, b1 % 128);
      if n.result.Ok? {
        PayloadNarrows(n.conn, b1 >= 128, n.result.value);
      }
    }
  }

  lemma PayloadNarrows(c: Conn, masked: bool, n: nat)
    ensures Narrows(c, ReadPayload(c, masked, n).conn)
  {
    ReadNarrows(c, n);
    ReadNarrows(c, 4);
    ReadNarrows(Read(c, 4).conn, n);
  }

  /** Nothing of a frame had arrived, or one byte of it. */
  lemma ProgressEarly(c: Conn, frames: seq<Frame>, missing: bytes)
    requires AllWellformed(frames) && Content(c) + missing == Stream(frames)
    requires SocketReady(c) && ReadMessage(c).result.Err? && Ready(c) < 2
    ensures Proceeds(frames, 0, Recv(c), missing) && Narrows(c, Recv(c).conn)
    ensures Ends(c.net) && missing == [] ==> frames == [] || Pauses(Recv(c).conn.net) < Pauses(c.net)
  {
    assert frames[0..] == frames && [] + AllTexts(frames) == AllTexts(frames);
    EarlyEnd(c);
    StreamLength(frames);
  }

  lemma StreamLength(frames: seq<Frame>)
    requires AllWellformed(frames)
    ensures frames != [] ==> |Stream(frames)| >= 2
  {
  }

  lemma EarlyEnd(c: Conn)
    requires SocketReady(c) && ReadMessage(c).result.Err? && Ready(c) < 2
    ensures Recv(c).result.Err? && Content(Recv(c).conn) == Content(c) && Narrows(c, Recv(c).conn)
    ensures Ends(c.net) ==> |Content(c)| < 2 || Pauses(Recv(c).conn.net) < Pauses(c.net)
  {
    FailsEarly(c);
    ReadNarrows(c, 2);
    ReadContent(c, 2);
  }

  /** A text frame or a close frame ends the call. */
  lemma LastOfCall(c: Conn, frames: seq<Frame>, missing: bytes)
    requires AllWellformed(frames) && Content(c) + missing == Stream(frames) && |frames| > 0
    requires SocketReady(c) && ReadMessage(c).result.Ok?
    requires frames[0].opcode == TEXT || frames[0].opcode == CLOSE
    ensures Proceeds(frames, 1, Recv(c), missing) && Narrows(c, Recv(c).conn)
  {
    RecvUnfolds(c);
    MessageNarrows(c);
    ReadFirst(c, frames, missing);
    assert [] + AllTexts(frames[1..]) == AllTexts(frames[1..]);
  }

  /** A call that tears nothing leaves a stream of frames. On a socket that ends, and with nothing
      missing, it takes a frame or a pause, or everything was read. */
  lemma {:induction false} RecvProgress(c: Conn, frames: seq<Frame>, missing: bytes) returns (k: nat)
    requires AllWellformed(frames) && Content(c) + missing == Stream(frames) && !Tears(c)
    ensures Proceeds(frames, k, Recv(c), missing) && Narrows(c, Recv(c).conn)
    ensures Ends(c.net) && missing == [] ==> frames == [] || k > 0 || Pauses(Recv(c).conn.net) < Pauses(c.net)
    decreases Size(c)
  {
    k := 0;
    assert frames[0..] == frames && [] + AllTexts(frames) == AllTexts(frames);
    if !SocketReady(c) {
      RecvIdle(c, frames, missing);
      return;
    }
    RecvUnfolds(c);
    TearsUnfolds(c);
    MessageNarrows(c);
    if ReadMessage(c).result.Err? {
      ProgressEarly(c, frames, missing);
      return;
    }
    ReadFirst(c, frames, missing);
    if frames[0].opcode == TEXT || frames[0].opcode == CLOSE {
      LastOfCall(c, frames, missing);
      return 1;
    }
    var rest := RecvProgress(After(c), frames[1..], missing);
    ProceedsOne(frames, rest, Recv(After(c)), missing);
    return rest + 1;
  }

  /** A caller that goes on after every error receives a prefix of the texts, unaltered and in
      order, as long as no call gives up inside a frame. */
  lemma {:induction false} HeardPrefix(c: Conn, frames: seq<Frame>, missing: bytes, calls: nat)
    requires AllWellformed(frames) && Content(c) + missing == Stream(frames) && !Torn(c, calls)
    ensures Heard(c, calls) <= AllTexts(frames)
    decreases calls
  {
    if calls > 0 {
      var k := RecvProgress(c, frames, missing);
      HeardPrefix(Recv(c).conn, frames[k..], missing, calls - 1);
    }
  }

  /** The whole stream is delivered: when it ends on a frame, no call gives up inside one, and
      there is a call for every frame and every pause, then all texts are received in order. */
  lemma {:induction false} HeardAll(c: Conn, frames: seq<Frame>, calls: nat)
    requires AllWellformed(frames) && Content(c) == Stream(frames) && Ends(c.net) && !Torn(c, calls)
    requires calls >= |frames| + Pauses(c.net)
    ensures Heard(c, calls) == AllTexts(frames)
    decreases calls, 1
  {
    assert Content(c) + [] == Content(c);
    if frames == [] {
      HeardPrefix(c, frames, [], calls);
    } else {
      var k := RecvProgress(c, frames, []);
      HeardAfter(c, Recv(c), frames, k, calls);
    }
  }

  lemma {:induction false} HeardAfter(c: Conn, r: Out<bytes>, frames: seq<Frame>, k: nat, calls: nat)
    requires AllWellformed(frames) && r == Recv(c) && Proceeds(frames, k, r, []) && Ends(r.conn.net)
    requires calls > 0 && !Torn(r.conn, calls - 1) && calls - 1 >= |frames| - k + Pauses(r.conn.net)
    ensures Heard(c, calls) == AllTexts(frames)
    decreases calls, 0
  {
    assert Content(r.conn) + [] == Content(r.conn);
    HeardAll(r.conn, frames[k..], calls - 1);
  }

  /** Without a pause everything there is can be read at once. */
  lemma {:induction false} SteadyBurst(net: seq<Event>)
    requires Ends(net) && Pauses(net) == 0
    ensures Burst(net) == |Flow(net)|
  {
    if |net| > 1 {
      SteadyBurst(net[1..]);
    }
  }

  /** Without a pause no call gives up inside a frame. */
  lemma {:induction false} SteadyWhole(c: Conn, frames: seq<Frame>)
    requires AllWellformed(frames) && Content(c) == Stream(frames) && Ends(c.net) && Pauses(c.net) == 0
    ensures !Tears(c)
    decreases Size(c)
  {
    SteadyBurst(c.net);
    TearsUnfolds(c);
    if |frames| > 0 {
      assert Content(c) + [] == Encode(frames[0]) + Stream(frames[1..]);
      FrameRoundTrip(c, frames[0], Stream(frames[1..]), []);
      MessageNarrows(c);
      ReadFirst(c, frames, []);
      assert Content(After(c)) + [] == Content(After(c));
      SteadyWhole(After(c), frames[1..]);
    }
  }

  lemma {:induction false} SteadyTorn(c: Conn, frames: seq<Frame>, calls: nat)
    requires AllWellformed(frames) && Content(c) == Stream(frames) && Ends(c.net) && Pauses(c.net) == 0
    ensures !Torn(c, calls)
    decreases calls
  {
    if calls > 0 {
      SteadyWhole(c, frames);
      assert Content(c) + [] == Content(c);
      var k := RecvProgress(c, frames, []);
      assert Content(Recv(c).conn) + [] == Content(Recv(c).conn);
      SteadyTorn(Recv(c).conn, frames[k..], calls - 1);
    }
  }

  /** However a stream of frames is cut into pieces: when no wait times out, every text payload is
      received, unaltered and in order. */
  lemma StreamRoundTrip(c: Conn, frames: seq<Frame>, calls: nat)
    requires AllWellformed(frames) && Content(c) == Stream(frames) && Ends(c.net) && Pauses(c.net) == 0
    requires calls >= |frames|
    ensures Heard(c, calls) == AllTexts(frames)
  {
    SteadyTorn(c, frames, calls);
    HeardAll(c, frames, calls);
  }

  /** Without a pause a call that returns no text has met a close frame or the end of the stream. */
  lemma {:induction false} SteadyError(c: Conn, frames: seq<Frame>)
    requires AllWellformed(frames) && Content(c) == Stream(frames) && Ends(c.net) && Pauses(c.net) == 0
    requires Recv(c).result.Err?
    ensures Texts(frames) == [] && Recv(c).result != Err(Idle)
    decreases Size(c)
  {
    RecvUnfolds(c);
    if |frames| > 0 {
      SteadyBurst(c.net);
      assert Content(c) + [] == Encode(frames[0]) + Stream(frames[1..]);
      FrameRoundTrip(c, frames[0], Stream(frames[1..]), []);
      MessageNarrows(c);
      ReadFirst(c, frames, []);
      TextsUnfold(frames);
      if frames[0].opcode != CLOSE {
        assert Content(After(c)) == Stream(frames[1..]);
        SteadyError(After(c), frames[1..]);
      }
    }
  }

  lemma {:induction false} ReturnedLess(c: Conn)
    requires Recv(c).result.Ok?
    ensures Size(Recv(c).conn) < Size(c)
    decreases Size(c)
  {
    RecvUnfolds(c);
    if ReadMessage(c).result.value.opcode != TEXT {
      AfterContent(c);
      ReturnedLess(After(c));
    }
  }

  /** A call returned the next text, or every text was received. */
  ghost predicate Serves(frames: seq<Frame>, k: nat, r: Out<bytes>)
    requires AllWellformed(frames)
  {
    if r.result.Ok? then
      && 0 < k <= |frames| && Texts(frames) == [r.result.value] + Texts(frames[k..])
      && Content(r.conn) == Stream(frames[k..]) && Ends(r.conn.net) && Pauses(r.conn.net) == 0
    else Texts(frames) == [] && r.result != Err(Idle)
  }

  lemma SteadyServes(c: Conn, frames: seq<Frame>) returns (k: nat)
    requires AllWellformed(frames) && Content(c) == Stream(frames) && Ends(c.net) && Pauses(c.net) == 0
    ensures Serves(frames, k, Recv(c))
  {
    k := 0;
    if Recv(c).result.Err? {
      SteadyError(c, frames);
    } else {
      var d := Recv(c).conn;
      assert Content(c) + [] == Content(c) && Content(d) + [] == Content(d) && frames[0..] == frames;
      SteadyWhole(c, frames);
      var _ := RecvProgress(c, frames, []);
      k := RecvStream(c, frames, []);
      ReturnedLess(c);
    }
  }

  /** The same for a caller that stops at the first error: it receives the texts up to a close. */
  lemma {:induction false} ReceivedAll(c: Conn, frames: seq<Frame>, calls: nat)
    requires AllWellformed(frames) && Content(c) == Stream(frames) && Ends(c.net) && Pauses(c.net) == 0
    requires calls >= |frames|
    ensures Received(c, calls) == Texts(frames)
    decreases calls, 0
  {
    if calls > 0 {
      var k := SteadyServes(c, frames);
      AllAfter(Recv(c), frames, k, calls - 1);
      ReceivedUnfolds(c, calls);
    }
  }

  lemma {:induction false} AllAfter(r: Out<bytes>, frames: seq<Frame>, k: nat, calls: nat)
    requires AllWellformed(frames) && Serves(frames, k, r) && calls + 1 >= |frames|
    ensures ReceivedAfter(r, calls) == Texts(frames)
    decreases calls, 1
  {
    if r.result.Ok? {
      ReceivedAll(r.conn, frames[k..], calls);
    }
  }

  // ---- inputs at which the client does less than one would expect ----------

  lemma ShortEncode(text: bytes)
    requires |text| < 126
    ensures Wellformed(Frame(TEXT, None, text)) && Encode(Frame(TEXT, None, text)) == [0x81, |text|] + text
  {
    assert Pow256(8) == 256 * Pow256(7);
    assert LengthBytes(|text|) == [] && [0x81, |text|] + [] == [0x81, |text|];
  }

  /** One text frame of three bytes, unmasked; what it carries looks like a frame itself. */
  const NESTED: Frame := Frame(TEXT, None, [0x81, 1, 120])

  lemma NestedBytes()
    ensures Wellformed(NESTED) && Encode(NESTED) == [0x81, 3, 0x81, 1, 120]
  {
    ShortEncode([0x81, 1, 120]);
  }

  /** The frame stalls after its header, and the next call returns a message that nobody sent. */
  lemma StallForges(sent: bytes)
    ensures var c := Conn([], [Chunk([0x81, 3]), Quiet, Chunk([0x81, 1, 120]), Chunk([])], sent);
            && Content(c) == Stream([NESTED]) && Recv(c).result == Err(ReadTimeout) && Tears(c)
            && Heard(c, 2) == [[120]] && AllTexts([NESTED]) == [[0x81, 1, 120]]
  {
    NestedBytes();
    StreamOne(NESTED);
    var c := Conn([], [Chunk([0x81, 3]), Quiet, Chunk([0x81, 1, 120]), Chunk([])], sent);
    FlowFour(c.net[0], c.net[1], c.net[2], c.net[3]);
    var d := Conn([], [Chunk([0x81, 1, 120]), Chunk([])], sent);
    StalledMessage(c, 3, d.net);
    RecvUnfolds(c);
    TearsUnfolds(c);
    assert [0x81, 1, 120] == [0x81, 1] + ([120] + []);
    RecvText(d, [120], [], [Chunk([])]);
    HeardTwo(c, d, [120]);
  }

  lemma StalledMessage(c: Conn, n: byte, net: seq<Event>)
    requires 0 < n < 126 && c.buf == [] && c.net == [Chunk([0x81, n]), Quiet] + net
    ensures ReadMessage(c) == Out(Conn([], net, c.sent), Err(ReadTimeout)) && Ready(c) >= 2
  {
    var d := Conn([], [Quiet] + net, c.sent);
    assert [0x81, n] + [] == [0x81, n] && c.net[1..] == d.net && d.net[1..] == net;
    ReadAtOnce(c, [0x81, n], []);
    assert Read(d, n) == Out(Conn([], net, c.sent), Err(ReadTimeout));
    MessageStalls(c, d, n);
  }

  lemma MessageStalls(c: Conn, d: Conn, n: byte)
    requires n < 126 && Read(c, 2) == Out(d, Ok([0x81, n])) && Read(d, n).result.Err?
    ensures ReadMessage(c) == Out(Read(d, n).conn, Err(Read(d, n).result.error))
  {
    assert ReadMessage(c) == ReadRest(d, 0x81, n);
    assert n % 128 == n && ReadLength(d, n) == Out(d, Ok(n));
  }

  lemma HeardTwo(c: Conn, d: Conn, text: bytes)
    requires Recv(c) == Out(d, Err(ReadTimeout)) && Recv(d).result == Ok(text)
    ensures Heard(c, 2) == [text]
  {
    assert Heard(c, 2) == [] + Heard(d, 1);
    assert Heard(d, 1) == [text] + Heard(Recv(d).conn, 0);
  }

  /** Two frames arrive together; after the first one is read the second is buffered, the socket
      is silent, and the wait for it times out. */
  lemma BufferedFrameWaits(a: bytes, b: bytes, sent: bytes)
    requires |a| < 126 && |b| < 126
    ensures Wellformed(Frame(TEXT, None, a)) && Wellformed(Frame(TEXT, None, b))
    ensures var second := Encode(Frame(TEXT, None, b));
            var c := Conn([], [Chunk(Encode(Frame(TEXT, None, a)) + second)], sent);
            Recv(c) == Out(Conn(second, [], sent), Ok(a)) && Recv(Recv(c).conn).result == Err(Idle)
  {
    ShortEncode(a);
    ShortEncode(b);
    var second := Encode(Frame(TEXT, None, b));
    var c := Conn([], [Chunk([0x81, |a|] + (a + second))], sent);
    assert ([0x81, |a|] + a) + second == [0x81, |a|] + (a + second);
    RecvText(c, a, second, []);
    RecvSilent(Conn(second, [], sent));
  }

  lemma RecvSilent(c: Conn)
    requires !SocketReady(c)
    ensures Recv(c) == Out(Waited(c), Err(Idle))
  {
  }

  /** What follows a ping with a payload on the wire is no stream of frames any more. */
  lemma PongBreaksStream(sent: bytes)
    ensures var c := Conn([], [Chunk([0x89, 1, 120])], sent);
            && Recv(c).conn.sent == sent + [0x8A, 0, 120]
            && forall frames | AllWellformed(frames) :: Stream(frames) != [0x8A, 0, 120]
  {
    var c := Conn([], [Chunk([0x89, 1, 120])], sent);
    assert [0x89, 1, 120] == [0x89, 1] + ([120] + []);
    ShortMessage(c, 0x89, PING, [120], [], []);
    RecvUnfolds(c);
    forall frames | AllWellformed(frames)
      ensures Stream(frames) != [0x8A, 0, 120]
    {
      if Stream(frames) == [0x8A, 0, 120] {
        NoSuchStream(frames);
      }
    }
  }

  lemma NoSuchStream(frames: seq<Frame>)
    requires AllWellformed(frames)
    ensures Stream(frames) != [0x8A, 0, 120]
  {
    if |frames| > 0 {
      var e, rest := Encode(frames[0]), Stream(frames[1..]);
      NotOneByte(frames[1..]);
      EmptyFrame(frames[0]);
      assert (e + rest)[1] == e[1] && |e + rest| == |e| + |rest|;
    }
  }

  lemma NotOneByte(frames: seq<Frame>)
    requires AllWellformed(frames)
    ensures |Stream(frames)| != 1
  {
    assert |frames| > 0 ==> |Encode(frames[0])| >= 2;
  }

  lemma EmptyFrame(f: Frame)
    requires Wellformed(f)
    ensures |Encode(f)| >= 2 && (Encode(f)[1] == 0 ==> |Encode(f)| == 2)
  {
    assert Encode(f)[1] == Header(f)[1];
  }

  lemma StreamOne(f: Frame)
    requires Wellformed(f)
    ensures Stream([f]) == Encode(f) && AllTexts([f]) == if f.opcode == TEXT then [f.payload] else []
  {
    assert Stream([]) == [] && AllTexts([]) == [];
    assert [f][1..] == [];
    assert Stream([f]) == Encode(f) + Stream([f][1..]);
  }

  lemma FlowFour(a: Event, b: Event, d: Event, e: Event)
    requires a.Chunk? && b.Quiet? && d.Chunk? && e == Chunk([])
    ensures Flow([a, b, d, e]) == a.data + d.data
  {
    assert [a, b, d, e][1..] == [b, d, e] && [b, d, e][1..] == [d, e] && [d, e][1..] == [e] && [e][1..] == [];
    assert Flow([e]) == [] && Flow([d, e]) == d.data && Flow([b, d, e]) == d.data;
  }

  /** The first read of a chunk that has all it asks for. */
  lemma ReadAtOnce(c: Conn, a: bytes, rest: bytes)
    requires |c.net| > 0 && c.buf == [] && c.net[0] == Chunk(a + rest) && |a| > 0
    ensures Read(c, |a|) == Out(c.(buf := rest, net := c.net[1..]), Ok(a))
  {
    assert [] + (a + rest) == a + rest && (a + rest)[..|a|] == a && (a + rest)[|a|..] == rest;
  }

  lemma ReadBuffered(c: Conn, a: bytes, rest: bytes)
    requires c.buf == a + rest
    ensures Read(c, |a|) == Out(c.(buf := rest), Ok(a))
  {
    assert (a + rest)[..|a|] == a && (a + rest)[|a|..] == rest;
  }

  /** A short frame that arrives in one chunk. */
  lemma ShortMessage(c: Conn, b0: byte, op: byte, text: bytes, rest: bytes, net: seq<Event>)
    requires |text| < 126 && b0 % 16 == op && c.buf == [] && c.net == [Chunk([b0, |text|] + (text + rest))] + net
    ensures ReadMessage(c) == Out(Conn(rest, net, c.sent), Ok(Message(op, text)))
  {
    var d := Conn(text + rest, net, c.sent);
    assert c.net[1..] == net;
    ReadAtOnce(c, [b0, |text|], text + rest);
    assert ReadMessage(c) == ReadRest(d, b0, |text|);
    ReadBuffered(d, text, rest);
    assert |text| % 128 == |text| && ReadLength(d, |text|) == Out(d, Ok(|text|));
  }

  lemma RecvText(c: Conn, text: bytes, rest: bytes, net: seq<Event>)
    requires |text| < 126 && c.buf == [] && c.net == [Chunk([0x81, |text|] + (text + rest))] + net
    ensures Recv(c) == Out(Conn(rest, net, c.sent), Ok(text))
  {
    ShortMessage(c, 0x81, TEXT, text, rest, net);
    RecvIsText(c, Conn(rest, net, c.sent), text);
  }

  lemma RecvIsText(c: Conn, d: Conn, text: bytes)
    requires SocketReady(c) && ReadMessage(c) == Out(d, Ok(Message(TEXT, text)))
    ensures Recv(c) == Out(d, Ok(text))
  {
  }
}
