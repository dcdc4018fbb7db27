/** Moving frames over a socket. recv and send may take any part of what they are offered;
    the loops here are what makes frames of the pieces. */
module Net {
  import opened Wire
  import opened Memory
  import opened Requests
  import opened Frames
  import opened Messages

  /** One connected socket. `incoming` is all the peer will still deliver before it closes;
      recv hands over any non-empty part of it, and 0 only when nothing is left. */
  class Socket {
    var incoming: Bytes
    var outgoing: Bytes
    const faulty: bool

    constructor (incoming: Bytes, faulty: bool)
      ensures this.incoming == incoming && outgoing == [] && this.faulty == faulty
    {
      this.incoming, outgoing, this.faulty := incoming, [], faulty;
    }

    method Recv(buf: array<Byte>, off: nat, n: nat) returns (k: int)
      requires 0 < n && off + n <= buf.Length
      modifies this`incoming, buf
      ensures k == -1 || 0 <= k <= n
      ensures k == -1 ==> faulty
      ensures k == 0 ==> old(incoming) == [] && incoming == []
      ensures k >= 0 ==> k <= |old(incoming)| && incoming == old(incoming)[k..]
      ensures k >= 0 ==> buf[..off] == old(buf[..off]) && buf[off..off + k] == old(incoming)[..k]
    {
      var error: bool := *;
      if faulty && error {
        return -1;
      }
      if incoming == [] {
        return 0;
      }
      var most := if n < |incoming| then n else |incoming|;
      k :| 1 <= k <= most;
      ghost var front := buf[..off];
      forall i | 0 <= i < k {
        buf[off + i] := incoming[i];
      }
      assert buf[..off] == front;
      assert buf[off..off + k] == incoming[..k];
      incoming := incoming[k..];
    }

    /** Hand over some non-empty prefix of the first `n` bytes at `data`. */
    method Send(data: Bytes, n: nat) returns (k: int)
      requires 0 < n <= |data|
      modifies this`outgoing
      ensures k == -1 || 1 <= k <= n
      ensures k == -1 ==> faulty && outgoing == old(outgoing)
      ensures k > 0 ==> outgoing == old(outgoing) + data[..k]
    {
      var error: bool := *;
      if faulty && error {
        return -1;
      }
      k :| 1 <= k <= n;
      outgoing := outgoing + data[..k];
    }
  }

  /** The receive loop: from `got` bytes to `want` bytes of `buf`. A close is clean (-1) only
      while the buffer is still empty. */
  method Fill(conn: Socket, buf: array<Byte>, got: nat, want: nat) returns (r: int)
    requires got < want <= buf.Length
    modifies conn`incoming, buf
    ensures r in {0, -1, -2, -3}
    ensures r == -3 ==> conn.faulty
    ensures r == -1 ==> got == 0 && old(conn.incoming) == []
    ensures r == -2 ==> |old(conn.incoming)| < want - got && (got == 0 ==> old(conn.incoming) != [])
    ensures r in {-1, -2} ==> conn.incoming == []
    ensures r == 0 ==> want - got <= |old(conn.incoming)| && conn.incoming == old(conn.incoming)[want - got..]
    ensures r == 0 ==> buf[..want] == old(buf[..got]) + old(conn.incoming)[..want - got]
  {
    ghost var stream, front := conn.incoming, buf[..got];
    var tot := got;
    while tot < want
      invariant got <= tot <= want && tot - got <= |stream|
      invariant conn.incoming == stream[tot - got..]
      invariant buf[..tot] == front + stream[..tot - got]
      decreases want - tot
    {
      var k := conn.Recv(buf, tot, want - tot);
      if k == 0 {
        return if tot == 0 then -1 else -2;
      } else if k == -1 {
        return -3;
      }
      assert stream[..tot - got] + stream[tot - got..][..k] == stream[..tot + k - got];
      assert buf[..tot + k] == buf[..tot] + buf[tot..tot + k];
      tot := tot + k;
    }
    r := 0;
  }

  function SignalResult(s: Signal): int {
    match s
    case Ack => 1
    case Rqst => 2
    case Abrt => 3
  }

  /** Seven bytes that may be a signal, and if they are not, the rest of the header and the body size. */
  method RecvHead(conn: Socket) returns (r: int, head: Bytes)
    modifies conn`incoming
    ensures r == -3 ==> conn.faulty
    ensures -3 <= r <= 3
    ensures r > 0 ==> exists s :: r == SignalResult(s) && NextFrame(old(conn.incoming)) == Received(Common(s), conn.incoming)
    ensures r == -1 ==> NextFrame(old(conn.incoming)) == Closed && conn.incoming == []
    ensures r == -2 ==> NextFrame(old(conn.incoming)) == Truncated && conn.incoming == []
    ensures r == 0 ==> |old(conn.incoming)| >= 15 && head == old(conn.incoming)[..15]
                       && conn.incoming == old(conn.incoming)[15..]
    ensures r == 0 ==> NextFrame(old(conn.incoming)) == BodyAfter(head[..13], Get16(head[13..]), conn.incoming)
  {
    hide BodyAfter;
    ghost var stream := conn.incoming;
    var header := new Byte[15];
    r := Fill(conn, header, 0, COM_MSG_SIZE);
    head := header[..7];
    if r != 0 {
      return;
    }
    assert head == stream[..7] && conn.incoming == stream[7..];
    if IsSignal(Ack, head) {
      assert SignalResult(Ack) == 1;
      return 1, head;
    } else if IsSignal(Rqst, head) {
      assert SignalResult(Rqst) == 2;
      return 2, head;
    } else if IsSignal(Abrt, head) {
      assert SignalResult(Abrt) == 3;
      return 3, head;
    }
    r := Fill(conn, header, COM_MSG_SIZE, MSG_HDR_SIZE + 2);
    head := header[..];
    if r == 0 {
      assert head == stream[..7] + stream[7..][..8] == stream[..15];
      assert stream[7..][8..] == stream[15..];
      assert head[..13] == stream[..13];
      assert Get16(stream[13..]) == Get16(head[13..]);
    }
  }

  /** The body and checksum into a temporary block, which is live on success only. */
  method RecvBody(conn: Socket, heap: Heap, bodySize: U16) returns (r: int, buff: Ptr, body: Bytes)
    requires heap.Valid()
    modifies conn`incoming, heap
    ensures heap.Valid() && old(heap.retired) <= heap.retired
    ensures r in {0, -1, -2, -3, -4}
    ensures r == -3 ==> conn.faulty
    ensures heap.calls == old(heap.calls) + 1
    ensures r == -4 <==> heap.fails(old(heap.calls))
    ensures r == -1 ==> old(conn.incoming) == [] && conn.incoming == []
    ensures r == -2 ==> 0 < |old(conn.incoming)| < bodySize + 2 && conn.incoming == []
    ensures r == 0 ==> bodySize + 2 <= |old(conn.incoming)| && body == old(conn.incoming)[..bodySize + 2]
    ensures r == 0 ==> conn.incoming == old(conn.incoming)[bodySize + 2..]
    ensures r == 0 ==> buff.Block? && buff.id !in old(heap.live) && heap.live == old(heap.live) + {buff.id}
    ensures r != 0 ==> heap.live == old(heap.live)
  {
    body := [];
    buff := heap.Malloc();
    if buff.Null? {
      return -4, buff, body;
    }
    var block := new Byte[bodySize + 2];
    r := Fill(conn, block, 0, bodySize + 2);
    if r != 0 {
      heap.Free(buff);
      return;
    }
    body := block[..];
  }

  /** The raw fields of a message hold a received general frame. */
  ghost predicate Filled(msg: Msg, f: Frame)
    reads msg
    requires f.General?
  {
    && msg.header == f.header && msg.tag == f.tag && msg.rawBytes == f.content && msg.checkSum == f.checkSum
    && msg.bodySize == 3 + |f.content| && msg.contSize == |f.content|
  }

  /** Copy a received frame from the temporary block into the message, release the block, parse. */
  method Deliver(heap: Heap, msg: Msg, buff: Ptr, f: Frame) returns (r: int)
    requires f.General? && BodyFits(f.tag, f.content)
    requires msg.raw.Null? && buff.Block? && buff.id in heap.live
    requires heap.Valid()
    modifies msg, heap
    ensures heap.Valid() && old(heap.retired) <= heap.retired
    ensures r in {0, RET_MEM_CONTENT, RET_PARSE_RAW_FAIL}
    ensures heap.calls >= old(heap.calls)
    ensures r == RET_MEM_CONTENT ==> heap.fails(old(heap.calls)) && msg.raw.Null?
    ensures r != RET_MEM_CONTENT ==> Filled(msg, f) && (msg.raw.Block? <==> |f.content| > 0)
    ensures r != 0 ==> msg.cont == old(msg.cont) && heap.live == old(heap.live) - {buff.id} + Target(msg.raw)
    ensures r == 0 ==> Parsed(f.tag, f.content, msg.cont)
                       && Claims(Holdings(f.tag, msg.cont), old(heap.live) - {buff.id} + Target(msg.raw), heap.live)
    ensures r == 0 ==> DeviceTag(f.tag)
    ensures NoFailureFrom(heap.fails, old(heap.calls)) ==> r == if DeviceTag(f.tag) then 0 else RET_PARSE_RAW_FAIL
    ensures msg.raw.Block? ==> msg.raw.id !in old(heap.live)
  {
    hide BodyFits, DeviceTag, Parsed, Holdings, Claims;
    msg.header, msg.bodySize, msg.tag, msg.contSize := f.header, 3 + |f.content|, f.tag, |f.content|;
    if msg.contSize > 0 {
      msg.raw := heap.Malloc();
      if msg.raw.Null? {
        heap.Free(buff);
        return RET_MEM_CONTENT;
      }
    }
    msg.rawBytes := f.content;
    msg.checkSum := f.checkSum;
    heap.Free(buff);
    assert heap.live == old(heap.live) - {buff.id} + Target(msg.raw);
    var e := msg.ParseRaw(heap);
    r := if e != 0 then RET_PARSE_RAW_FAIL else 0;
  }

  /** Receive one frame: the return code and the state left behind are those of the frame at the
      front of the stream, however recv cuts the bytes. */
  method RecvMessage(conn: Socket, heap: Heap, msg: Msg?) returns (r: int)
    requires NextFrame(conn.incoming) != Malformed
    requires heap.Valid()
    modifies conn`incoming, heap, msg
    ensures heap.Valid() && old(heap.retired) <= heap.retired
    ensures r == -3 ==> conn.faulty
    ensures r == -4 ==> heap.fails(old(heap.calls))
    ensures var n := NextFrame(old(conn.incoming));
            r != -3 && r != -4 ==>
              && (n.Closed? ==> r == -1)
              && (n.Truncated? ==> r == -2)
              && (r in {-1, -2} ==> conn.incoming == [])
              && (n.Received? ==> conn.incoming == n.rest)
              && (n.Received? && n.frame.Common? ==> r == SignalResult(n.frame.signal))
              && (n.Received? && n.frame.General? ==>
                    && (msg == null ==> r == -5)
                    && (msg != null && old(msg.raw).Block? ==> r == -6)
                    && (msg != null && old(msg.raw).Null? ==> r in {0, RET_MEM_CONTENT, RET_PARSE_RAW_FAIL})
                    && (r == 0 || r == RET_PARSE_RAW_FAIL ==> Filled(msg, n.frame))
                    && (r == 0 ==> Says(msg.tag, msg.rawBytes, msg.cont)))
    ensures !conn.faulty && [0, 0, 0, 0, 0, 0x96, 0x06] <= old(conn.incoming) ==> r == 1
    ensures !conn.faulty && [0, 0, 0, 0, 0, 0x96, 0x05] <= old(conn.incoming) ==> r == 2
    ensures !conn.faulty && [0, 0, 0, 0, 0, 0x96, 0x18] <= old(conn.incoming) ==> r == 3
    ensures -6 <= r < 0 || r > 0 ==> heap.live == old(heap.live) && (msg != null ==> unchanged(msg))
    ensures r in {0, RET_MEM_CONTENT, RET_PARSE_RAW_FAIL} ==>
              && msg != null && (msg.raw.Block? ==> msg.raw.id !in old(heap.live))
              && (r != 0 ==> msg.cont == old(msg.cont) && heap.live == old(heap.live) + Target(msg.raw))
              && (r == 0 ==> Claims(Holdings(msg.tag, msg.cont), old(heap.live) + Target(msg.raw), heap.live))
    ensures heap.calls >= old(heap.calls)
    ensures NoFailureFrom(heap.fails, old(heap.calls)) ==> r != -4 && r != RET_MEM_CONTENT
    ensures NoFailureFrom(heap.fails, old(heap.calls)) && r == RET_PARSE_RAW_FAIL ==> !DeviceTag(msg.tag)
    ensures -6 <= r <= 3 || r == RET_MEM_CONTENT || r == RET_PARSE_RAW_FAIL
  {
    hide NextFrame, BodyFits, DeviceTag, Parsed, Holdings, Claims;
    var head, buff, body;
    SignalInFront(conn.incoming);
    r, head := RecvHead(conn);
    if r != 0 {
      return;
    }
    var bodySize := Get16(head[13..]);
    ghost var stream := conn.incoming;
    r, buff, body := RecvBody(conn, heap, bodySize);
    if r != 0 {
      return;
    }
    ReadBody(head[..13], bodySize, stream, body);
    if msg == null {
      heap.Free(buff);
      return -5;
    }
    if msg.raw.Block? {
      heap.Free(buff);
      return -6;
    }
    r := Deliver(heap, msg, buff, General(head[..13], GetTag(body), body[3..bodySize], Get16(body[bodySize..])));
  }

  /** What receiving a frame gives: a signal's code, or 0 and a message that holds the frame and says
      what its content says. */
  ghost predicate Arrives(f: Frame, r: int, msg: Msg)
    reads msg
  {
    match f
    case Common(s) => r == SignalResult(s)
    case General(_, _, _, _) => r == 0 && Filled(msg, f) && Says(msg.tag, msg.rawBytes, msg.cont)
  }

  /** Receive into fresh messages until something other than a frame comes. On a stream of signals and
      device messages laid end to end this gives exactly these, one by one and however recv cuts the
      bytes, then the clean close, and leaves nothing. */
  method RecvAll(conn: Socket, heap: Heap, ghost fs: seq<Frame>) returns (rs: seq<int>, msgs: seq<Msg>, last: int)
    requires conn.incoming == EncodeAll(fs)
    requires forall f :: f in fs ==> WellFormed(f) && (f.General? ==> DeviceTag(f.tag))
    requires !conn.faulty && NoFailureFrom(heap.fails, heap.calls)
    requires heap.Valid()
    modifies conn`incoming, heap
    ensures heap.Valid() && old(heap.retired) <= heap.retired
    ensures |rs| == |msgs| == |fs| && (forall i :: 0 <= i < |fs| ==> Arrives(fs[i], rs[i], msgs[i]))
    ensures forall m :: m in msgs ==> fresh(m)
    ensures last == -1 && conn.incoming == []
  {
    hide NextFrame, WellFormed, EncodeFrame, EncodeAll, DeviceTag, Says, Claims, Holdings;
    rs, msgs, last := [], [], 0;
    while last >= 0
      invariant heap.Valid() && old(heap.retired) <= heap.retired && heap.calls >= old(heap.calls)
      invariant |rs| == |msgs| <= |fs|
      invariant last >= 0 ==> conn.incoming == EncodeAll(fs[|rs|..])
      invariant forall i :: 0 <= i < |rs| ==> Arrives(fs[i], rs[i], msgs[i])
      invariant forall m :: m in msgs ==> fresh(m)
      invariant last < 0 ==> last == -1 && |rs| == |fs| && conn.incoming == []
      decreases |fs| - |rs|, last >= 0
    {
      ghost var left := fs[|rs|..];
      FrontOfAll(left);
      var msg := new Msg();
      last := RecvMessage(conn, heap, msg);
      if last >= 0 {
        assert fs[|rs|] == left[0] && left[1..] == fs[|rs| + 1..];
        rs, msgs := rs + [last], msgs + [msg];
      }
    }
  }

  /** The front of a stream of frames: its first frame, or the end. */
  lemma FrontOfAll(fs: seq<Frame>)
    requires forall f :: f in fs ==> WellFormed(f)
    ensures fs == [] ==> NextFrame(EncodeAll(fs)) == Closed
    ensures fs != [] ==> NextFrame(EncodeAll(fs)) == Received(fs[0], EncodeAll(fs[1..]))
  {
    if fs != [] {
      FrameReadsBack(fs[0], EncodeAll(fs[1..]));
    }
  }

  /** The body and checksum, cut out of the stream, are the general frame the stream starts with. */
  lemma ReadBody(header: Bytes, bodySize: U16, b: Bytes, body: Bytes)
    requires bodySize + 2 <= |b| && body == b[..bodySize + 2]
    requires BodyAfter(header, bodySize, b) != Malformed
    ensures bodySize >= 3 && BodyFits(GetTag(body), body[3..bodySize])
    ensures BodyAfter(header, bodySize, b)
            == Received(General(header, GetTag(body), body[3..bodySize], Get16(body[bodySize..])), b[bodySize + 2..])
  {
    assert body[3..bodySize] == b[3..bodySize];
    assert Get16(body[bodySize..]) == Get16(b[bodySize..]);
  }

  // Sending. The loops offer the start of the frame again after a partial send.

  function Total(ks: seq<nat>): nat {
    if ks == [] then 0 else Total(ks[..|ks| - 1]) + ks[|ks| - 1]
  }

  /** Sizes of successive sends that together make up `n` bytes. */
  predicate Chunks(ks: seq<nat>, n: nat) {
    (forall i :: 0 <= i < |ks| ==> 1 <= ks[i] <= n) && Total(ks) == n
  }

  /** What sends of these sizes put on the wire: each takes a prefix of the whole frame. */
  function Emitted(w: Bytes, ks: seq<nat>): Bytes
    requires forall i :: 0 <= i < |ks| ==> ks[i] <= |w|
  {
    if ks == [] then [] else Emitted(w, ks[..|ks| - 1]) + w[..ks[|ks| - 1]]
  }

  method SendLoop(conn: Socket, data: Bytes) returns (r: int, ghost ks: seq<nat>)
    modifies conn`outgoing
    ensures r == 0 || r == -1
    ensures r == -1 ==> conn.faulty
    ensures r == 0 ==> Chunks(ks, |data|) && conn.outgoing == old(conn.outgoing) + Emitted(data, ks)
  {
    var tot := 0;
    ks := [];
    while tot < |data|
      invariant 0 <= tot <= |data| && tot == Total(ks)
      invariant forall i :: 0 <= i < |ks| ==> 1 <= ks[i] <= |data|
      invariant conn.outgoing == old(conn.outgoing) + Emitted(data, ks)
      decreases |data| - tot
    {
      var k := conn.Send(data, |data| - tot);
      if k < 0 {
        return -1, ks;
      }
      ghost var before := ks;
      tot, ks := tot + k, ks + [k];
      assert ks[..|ks| - 1] == before;
    }
    r := 0;
  }

  method SendSignal(conn: Socket, s: Signal) returns (r: int, ghost ks: seq<nat>)
    modifies conn`outgoing
    ensures r == 0 || r == -1
    ensures r == -1 ==> conn.faulty
    ensures r == 0 ==> Chunks(ks, COM_MSG_SIZE) && conn.outgoing == old(conn.outgoing) + Emitted(SignalBytes(s), ks)
    ensures SignalBytes(s) == [0, 0, 0, 0, 0, 0x96, match s case Ack => 0x06 case Rqst => 0x05 case Abrt => 0x18]
  {
    r, ks := SendLoop(conn, SignalBytes(s));
  }

  /** The frame a prepared request is laid out as. */
  function RequestFrame(tag: Tag, content: Content16): Frame {
    General(DesktopHeader(|content|), tag, content, CheckSum(tag, content))
  }

  /** Prepare, lay out, send. Whatever happens, the message owns nothing afterwards. */
  method SendMessageTo(conn: Socket, heap: Heap, msg: Msg)
    returns (r: int, ghost content: Content16, ghost ks: seq<nat>)
    requires RequestTag(msg.tag) ==> msg.cont.Sent? && Matches(msg.tag, msg.cont.request) && Sendable(msg.cont.request)
    requires msg.Owned(heap)
    requires heap.Valid()
    modifies conn`outgoing, heap, msg
    ensures heap.Valid() && old(heap.retired) <= heap.retired
    ensures r in {0, -1, -2, RET_MALLOC_FAIL} && heap.calls >= old(heap.calls)
    ensures r == -2 ==> conn.faulty
    ensures msg.tag == old(msg.tag) && msg.raw == Null && msg.PwBlock() == Null
    ensures heap.live == old(heap.live) - Target(old(msg.raw)) - Target(old(msg.PwBlock()))
    ensures Target(old(msg.PwBlock())) <= heap.retired
    ensures r == 0 ==> RequestTag(msg.tag) && |content| == ContSize(old(msg.cont).request)
                       && RequestBytes(old(msg.cont).request) <= content
    ensures r == 0 ==>
              var wire := EncodeFrame(RequestFrame(msg.tag, content));
              Chunks(ks, |wire|) && conn.outgoing == old(conn.outgoing) + Emitted(wire, ks)
    ensures (RequestTag(msg.tag) && old(msg.raw).Null? && !NoWriter(old(msg.cont).request)
             && NoFailureFrom(heap.fails, old(heap.calls)) && !conn.faulty) ==> r == 0
  {
    hide Matches, RequestTag, RequestBytes, Emitted, Chunks, CheckSum;
    content, ks := [], [];
    r := msg.Prepare(heap);
    if r != 0 {
      msg.Clean(heap);
      return -1, content, ks;
    }
    var wire := heap.Malloc();
    if wire.Null? {
      msg.Clean(heap);
      return RET_MALLOC_FAIL, content, ks;
    }
    content := msg.rawBytes;
    var data := msg.header + Put16(msg.bodySize) + TagBytes(msg.tag) + msg.rawBytes + Put16(msg.checkSum);
    assert data == EncodeFrame(RequestFrame(msg.tag, content));
    r, ks := SendLoop(conn, data);
    if r < 0 {
      msg.Clean(heap);
      heap.Free(wire);
      return -2, content, ks;
    }
    msg.Clean(heap);
    heap.Free(wire);
    r := 0;
  }

  /** A request frame, read back by the receiver behind any other bytes' front: header, type,
      content, checksum, and the content size the header carries. */
  lemma RequestReadsBack(tag: Tag, content: Content16, rest: Bytes)
    requires RequestTag(tag)
    ensures var f := RequestFrame(tag, content);
            && NextFrame(EncodeFrame(f) + rest) == Received(f, rest)
            && Get16(f.header[9..]) == |content| && f.checkSum == CheckSum(tag, content)
  {
    var f := RequestFrame(tag, content);
    FixedHeadersAreGeneral(|content|);
    FrameReadsBack(f, rest);
  }

  /** An RDW variation nobody knows is announced with length -12, which wraps: the request goes out
      as a body of 65527 bytes of which the writer has stored 7 of content. */
  lemma UnknownVariationIsSent(q: Request)
    requires q.Rdw? && q.variation.Unknown? && Shaped(q)
    ensures Sendable(q) && ContSize(q) == 65524 && |RequestBytes(q)| == 7
  {
  }

  // What partial sends do to a frame.

  lemma {:induction false} EmittedLength(w: Bytes, ks: seq<nat>)
    requires forall i :: 0 <= i < |ks| ==> ks[i] <= |w|
    ensures |Emitted(w, ks)| == Total(ks)
  {
    if ks != [] {
      EmittedLength(w, ks[..|ks| - 1]);
    }
  }

  /** One send that takes everything leaves the frame intact. */
  lemma WholeSendIsIntact(w: Bytes)
    requires w != []
    ensures Chunks([|w|], |w|) && Emitted(w, [|w|]) == w
  {
    assert [|w|][..0] == [];
    assert Total([|w|]) == Total([]) + |w|;
    assert Emitted(w, [|w|]) == Emitted(w, []) + w[..|w|];
  }

  /** Every send repeated the bytes that belonged at its place. */
  ghost predicate Repeats(w: Bytes, ks: seq<nat>)
    requires forall i :: 0 <= i < |ks| ==> ks[i] <= |w|
    requires Total(ks) <= |w|
    decreases |ks|
  {
    ks == [] ||
    (var at := Total(ks[..|ks| - 1]);
     Repeats(w, ks[..|ks| - 1]) && w[at..at + ks[|ks| - 1]] == w[..ks[|ks| - 1]])
  }

  /** A frame survives partial sends exactly when it repeats its own start at every later offset. */
  lemma {:induction false} IntactExactly(w: Bytes, ks: seq<nat>)
    requires forall i :: 0 <= i < |ks| ==> ks[i] <= |w|
    requires Total(ks) <= |w|
    ensures Emitted(w, ks) == w[..Total(ks)] <==> Repeats(w, ks)
  {
    if ks != [] {
      var front, k := ks[..|ks| - 1], ks[|ks| - 1];
      var at := Total(front);
      IntactExactly(w, front);
      EmittedLength(w, front);
      assert w[..at + k] == w[..at] + w[at..at + k];
      assert Emitted(w, ks)[..at] == Emitted(w, front) && Emitted(w, ks)[at..] == w[..k];
      assert w[..at + k][..at] == w[..at] && w[..at + k][at..] == w[at..at + k];
    }
  }

  /** A frame that survives repeats itself: every byte behind the first piece is equal to one of the
      bytes the frame starts with, at a distance of at least the first piece. */
  lemma {:induction false} SurvivorRepeats(w: Bytes, ks: seq<nat>, x: nat) returns (at: nat)
    requires forall i :: 0 <= i < |ks| ==> ks[i] <= |w|
    requires Total(ks) <= |w| && Repeats(w, ks)
    requires ks != [] && ks[0] <= x < Total(ks)
    ensures ks[0] <= at <= x && w[x] == w[x - at]
  {
    var front, k := ks[..|ks| - 1], ks[|ks| - 1];
    at := Total(front);
    if front == [] {
      assert false;
    } else {
      FirstCounts(front);
      if x < at {
        at := SurvivorRepeats(w, front, x);
      } else {
        assert w[at..at + k][x - at] == w[..k][x - at];
      }
    }
  }

  lemma {:induction false} FirstCounts(ks: seq<nat>)
    requires ks != []
    ensures Total(ks) >= ks[0]
  {
    if |ks| > 1 {
      FirstCounts(ks[..|ks| - 1]);
    }
  }

  /** A request never survives partial sends when the first of them took no more than the header,
      however the rest went. */
  lemma CutHeaderIsLost(tag: Tag, content: Content16, ks: seq<nat>)
    requires var n := |EncodeFrame(RequestFrame(tag, content))|; Chunks(ks, n) && |ks| > 1 && ks[0] <= MSG_HDR_SIZE
    ensures var w := EncodeFrame(RequestFrame(tag, content)); Emitted(w, ks) != w
  {
    hide EncodeFrame, RequestFrame, Emitted, Put16;
    var w := EncodeFrame(RequestFrame(tag, content));
    HeaderInFront(tag, content);
    if Emitted(w, ks) == w {
      assert w[..|w|] == w;
      IntactExactly(w, ks);
      NoFrontRepeats(w, ks, |content|);
    }
  }

  /** The first fifteen bytes of a request, whatever it is. */
  lemma HeaderInFront(tag: Tag, content: Content16)
    ensures var w := EncodeFrame(RequestFrame(tag, content));
            && |w| > 15 && w[..9] == [0, 0, 0, 0, 0, 0x96, 1, 1, 0x0c]
            && w[9..11] == Put16(|content|) && w[13..15] == Put16(3 + |content|)
  {
    var h, w := DesktopHeader(|content|), EncodeFrame(RequestFrame(tag, content));
    assert h[..9] == [0, 0, 0, 0, 0, 0x96, 1, 1, 0x0c] && h[9..11] == Put16(|content|);
    assert w[..13] == h && w[13..15] == Put16(3 + |content|);
  }

  lemma NoFrontRepeats(w: Bytes, ks: seq<nat>, n: U16)
    requires |w| > 15 && w[..9] == [0, 0, 0, 0, 0, 0x96, 1, 1, 0x0c] && 3 + n < 0x1_0000
    requires w[9..11] == Put16(n) && w[13..15] == Put16(3 + n)
    requires (forall i :: 0 <= i < |ks| ==> ks[i] <= |w|) && Total(ks) == |w|
    requires ks != [] && 1 <= ks[0] <= 13
    ensures !Repeats(w, ks)
  {
    hide Repeats, Total, Put16;
    if Repeats(w, ks) {
      var x := if ks[0] <= 5 then 5 else if ks[0] <= 8 then ks[0] else if w[13] != 0 then 13 else 14;
      assert w[13] == Put16(3 + n)[0] && w[14] == Put16(3 + n)[1] && w[9] == Put16(n)[0];
      SizeBytes(n);
      var at := SurvivorRepeats(w, ks, x);
      assert forall i :: 0 <= i < 9 ==> w[i] == w[..9][i];
      if x == 14 && at == 9 {
        var again := SurvivorRepeats(w, ks, 9);
      }
    }
  }

  /** A body size is not zero, and one of 0x9600 comes with a content size of 0x95fd. */
  lemma SizeBytes(n: U16)
    requires 3 + n < 0x1_0000
    ensures var size := Put16(3 + n);
            (size[0] != 0 || size[1] != 0) && (size[0] == 0 && size[1] == 0x96 ==> Put16(n)[0] == 0xfd)
  {
  }

  /** A signal survives exactly when one send takes all seven bytes; otherwise the receiver does
      not even see a signal. */
  lemma SignalNeedsOneSend(s: Signal, ks: seq<nat>)
    requires Chunks(ks, COM_MSG_SIZE)
    ensures Emitted(SignalBytes(s), ks) == SignalBytes(s) <==> |ks| == 1
    ensures |ks| != 1 ==> |Emitted(SignalBytes(s), ks)| == 7 && NoSignal(Emitted(SignalBytes(s), ks))
  {
    var w := SignalBytes(s);
    EmittedLength(w, ks);
    var front, k := ks[..|ks| - 1], ks[|ks| - 1];
    EmittedLength(w, front);
    var e := Emitted(w, ks);
    if |ks| == 1 {
      assert front == [] && k == 7 && e == [] + w[..7];
    } else {
      assert |front| > 0 && Total(front) >= front[|front| - 1] >= 1;
      assert k < 7 && e[6] == w[..k][k - 1];
      assert e[..7] == e;
    }
  }
}
