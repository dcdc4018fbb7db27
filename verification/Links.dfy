/** The request/message/acknowledge exchanges over the session connection, with the transcript
    of accepted frames recorded beside them. */
module Links {
  import opened Wire
  import opened Memory
  import opened Replies
  import opened Requests
  import opened Frames
  import opened Messages
  import opened Transcripts
  import Layouts
  import Net

  /** A general frame delivered by a wrapped receive: its type and raw content. */
  datatype Reply = Reply(tag: Tag, body: Bytes)

  /** The size of the buffers a model string and a description are copied to, with a zero behind. */
  const BUFFER_SIZE := 256

  /** Nothing in the body is too long for the buffer it will be copied to. */
  predicate Holdable(tag: Tag, body: Bytes) {
    && (tag == AIG && DecodeAig(body).Good? ==> |DecodeAig(body).val.model| < BUFFER_SIZE)
    && (tag == ADI && DecodeAdi(body).Good? ==> Describable(DecodeAdi(body).val.rows))
  }

  predicate Describable(rows: seq<FormatRow>) {
    forall i :: 0 <= i < |rows| ==> |rows[i].desc| < BUFFER_SIZE
  }

  /** From a frame boundary on, every complete general frame has a body its parser can read and the
      library's buffers can hold. */
  predicate StreamOk(b: Bytes)
    decreases |b|
  {
    match NextFrame(b)
    case Malformed => false
    case Received(f, rest) => |rest| < |b| && (f.General? ==> Holdable(f.tag, f.content)) && StreamOk(rest)
    case _ => true
  }

  function CodeSignal(r: int): Signal {
    if r == 1 then Ack else if r == 2 then Rqst else Abrt
  }

  /** A request of a known type with content its writer can put into the block sized for it. */
  ghost predicate Ready(tag: Tag, q: Request) {
    RequestTag(tag) && Matches(tag, q) && Sendable(q)
  }

  lemma FixedSizeIsReady(tag: Tag, q: Request)
    requires Matches(tag, q) && Shaped(q) && !q.Rdw? && !q.Rge?
    ensures Ready(tag, q) && !NoWriter(q)
  {
    SendableExactly(q);
  }

  /** The replies of a session can be parsed. */
  lemma RepliesAreParsed()
    ensures DeviceTag(AAY) && DeviceTag(AIG) && DeviceTag(AMG) && DeviceTag(ATG) && DeviceTag(AEX)
    ensures DeviceTag(ANG) && DeviceTag(ADI) && DeviceTag(ASY) && DeviceTag(ADR)
  {
  }

  /** What a failed wrapped receive leaves in the transcript. */
  ghost predicate CutShort(before: Trace, after: Trace) {
    || after == before
    || after == before + [Out(Sig(Rqst))]
    || exists tag :: after == before + [Out(Sig(Rqst)), In(Gen(tag))]
  }

  lemma SendingInSteps(start: Trace, t: Tag)
    ensures var w := Sending(t);
            && |w| == 3 && start == start + w[..0] && start + [In(Sig(Rqst))] == start + w[..1]
            && start + w[..1] + [Out(Gen(t))] == start + w[..2] && start + w[..2] + [In(Sig(Ack))] == start + w
  {
  }

  lemma ReadyFacts(tag: Tag, q: Request)
    requires Ready(tag, q)
    ensures RequestTag(tag) && Matches(tag, q) && Sendable(q)
  {
  }

  lemma ErasedSame(q: Request)
    requires Shaped(q)
    ensures Shaped(Erased(q)) && ContSize(Erased(q)) == ContSize(q) && RequestBytes(Erased(q)) == RequestBytes(q)
    ensures forall c: Bytes :: Layouts.Carries(c, Erased(q)) <==> Layouts.Carries(c, q)
  {
  }

  lemma WrittenOut(before: Bytes, after: Bytes, tag: Tag, q: Request, content: Content16, ks: seq<nat>)
    requires Sendable(q) && |content| == ContSize(q) && RequestBytes(q) <= content
    requires var wire := EncodeFrame(Net.RequestFrame(tag, content));
             Net.Chunks(ks, |wire|) && after == before + Net.Emitted(wire, ks)
    ensures RequestOut(before, after, tag, Erased(q))
  {
    hide EncodeFrame, RequestBytes, ContSize, Shaped, Net.RequestFrame, Net.Emitted, Layouts.Carries;
    ErasedSame(q);
    Layouts.ContentCarries(q, content);
    assert WentOut(before, after, EncodeFrame(Net.RequestFrame(tag, content)));
  }

  /** Nothing has become live but what at most one parsed reply was put in. */
  ghost predicate OnlyContent(before: set<nat>, after: set<nat>) {
    exists tag, c :: Claims(Holdings(tag, c), before, after)
  }

  lemma SomeContent(tag: Tag, c: Content, before: set<nat>, after: set<nat>)
    requires Claims(Holdings(tag, c), before, after)
    ensures OnlyContent(before, after)
  {
  }

  lemma NoContent(before: set<nat>)
    ensures OnlyContent(before, before)
  {
    assert Holdings(AEX, Blank) == [];
    SomeContent(AEX, Blank, before, before);
  }

  lemma OnlyWithoutRaw(before: set<nat>, raw: Ptr, live: set<nat>)
    requires OnlyContent(before + Target(raw), live) && (raw.Block? ==> raw.id !in before)
    ensures OnlyContent(before, live - Target(raw))
  {
    hide Claims, Holdings;
    var tag, c :| Claims(Holdings(tag, c), before + Target(raw), live);
    WithoutRaw(Holdings(tag, c), before, raw, live);
  }

  /** The blocks of parsed content outlive the raw content they came with. */
  lemma WithoutRaw(ps: seq<Ptr>, before: set<nat>, raw: Ptr, live: set<nat>)
    requires Claims(ps, before + Target(raw), live) && (raw.Block? ==> raw.id !in before)
    ensures Claims(ps, before, live - Target(raw))
  {
    forall b | b in live - Target(raw) ensures b in before || Block(b) in ps {
    }
  }

  lemma ShortOfAnswer(asked: Trace, after: Trace, want: Tag)
    requires CutShort(asked, after)
             || (exists s :: after == asked + [Out(Sig(Rqst)), In(Sig(s))])
             || (exists tag :: tag != want && after == asked + Receiving(tag))
    ensures after != asked + Receiving(want)
  {
    var t := asked + Receiving(want);
    assert t[|asked| + 1] == In(Gen(want));
  }

  /** A receive that failed, brought a signal, or brought another type than the wanted one leaves a
      transcript that strays from the exchange it belongs to. */
  lemma AnswerStrays(start: Trace, asked: Trace, after: Trace, head: Trace, want: Tag)
    requires asked == start + head
    requires CutShort(asked, after)
             || (exists s :: after == asked + [Out(Sig(Rqst)), In(Sig(s))])
             || (exists tag :: after == asked + Receiving(tag))
    ensures StraysFrom(start, after, head + Receiving(want))
    ensures after != asked + Receiving(want) ==> after != start + (head + Receiving(want))
  {
    assert asked + Receiving(want) == start + (head + Receiving(want));
    var word := head + Receiving(want);
    assert word[..|head|] == head && word[..|head| + 1] == head + [Out(Sig(Rqst))];
    if after == asked {
      StrayNowhere(start, after, word, |head|);
    } else if after == asked + [Out(Sig(Rqst))] {
      StrayNowhere(start, after, word, |head| + 1);
    } else {
      Stray(start, after, word, |head| + 1, after[|asked| + 1..]);
    }
  }

  // What the transcript says about the bytes on the connection.

  /** A frame went out whole or in pieces: sends that together count its bytes. */
  ghost predicate WentOut(before: Bytes, after: Bytes, wire: Bytes) {
    exists ks :: Net.Chunks(ks, |wire|) && after == before + Net.Emitted(wire, ks)
  }

  /** A request signal went out, and then an acknowledgement. */
  ghost predicate AskedAndThanked(before: Bytes, after: Bytes) {
    exists mid :: WentOut(before, mid, [0, 0, 0, 0, 0, 0x96, 0x05]) && WentOut(mid, after, [0, 0, 0, 0, 0, 0x96, 0x06])
  }

  lemma ThankedAfterAsking(before: Bytes, mid: Bytes, after: Bytes)
    requires WentOut(before, mid, SignalBytes(Rqst)) && WentOut(mid, after, SignalBytes(Ack))
    ensures AskedAndThanked(before, after)
  {
    hide WentOut;
    assert SignalBytes(Rqst) == [0, 0, 0, 0, 0, 0x96, 0x05] && SignalBytes(Ack) == [0, 0, 0, 0, 0, 0x96, 0x06];
  }

  /** A request went out: a frame whose content, of the announced size, says what the request says. */
  ghost predicate RequestOut(before: Bytes, after: Bytes, tag: Tag, q: Request) {
    Shaped(q) && exists content: Content16 ::
      && |content| == ContSize(q) && Layouts.Carries(content, q)
      && WentOut(before, after, EncodeFrame(Net.RequestFrame(tag, content)))
  }

  /** That, and then what receiving its reply puts out. */
  ghost predicate Asked(before: Bytes, after: Bytes, tag: Tag, q: Request) {
    exists mid :: RequestOut(before, mid, tag, q) && mid <= after && AskedAndThanked(mid, after)
  }

  /** A general frame of this type and content was at the front of the stream. */
  ghost predicate MessageIn(before: Bytes, after: Bytes, r: Reply) {
    var n := NextFrame(before);
    n.Received? && n.frame.General? && n.frame.tag == r.tag && n.frame.content == r.body && n.rest == after
  }

  /** A request without the pointer to its password. */
  function Erased(q: Request): (e: Request)
    ensures !q.Rrl? ==> e == q
  {
    if q.Rrl? then q.(pwBlock := Null) else q
  }

  /** The transcript, the requests and the replies are what happened to the two byte streams: every
      frame of it, in order, was taken from one or put on the other, and nothing else was. */
  ghost predicate Played(t: Trace, qs: seq<Request>, rs: seq<Reply>, in0: Bytes, in1: Bytes, out0: Bytes, out1: Bytes)
    decreases |t|
  {
    if t == [] then qs == [] && rs == [] && in1 == in0 && out1 == out0
    else
      var front, e := t[..|t| - 1], t[|t| - 1];
      match e
      case Knock(_) => Played(front, qs, rs, in0, in1, out0, out1)
      case In(Sig(s)) => exists b :: NextFrame(b) == Received(Common(s), in1) && Played(front, qs, rs, in0, b, out0, out1)
      case In(Gen(tag)) =>
        rs != [] && var r := rs[|rs| - 1];
        r.tag == tag && exists b :: MessageIn(b, in1, r) && Played(front, qs, rs[..|rs| - 1], in0, b, out0, out1)
      case Out(Sig(s)) => exists b :: WentOut(b, out1, SignalBytes(s)) && Played(front, qs, rs, in0, in1, out0, b)
      case Out(Gen(tag)) =>
        qs != [] && var q := qs[|qs| - 1];
        exists b :: RequestOut(b, out1, tag, q) && Played(front, qs[..|qs| - 1], rs, in0, in1, out0, b)
  }

  lemma PlayedSignalIn(t: Trace, qs: seq<Request>, rs: seq<Reply>, in0: Bytes, b: Bytes, in1: Bytes, out0: Bytes,
                       out1: Bytes, s: Signal)
    requires Played(t, qs, rs, in0, b, out0, out1) && NextFrame(b) == Received(Common(s), in1)
    ensures Played(t + [In(Sig(s))], qs, rs, in0, in1, out0, out1)
  {
    hide WentOut, RequestOut, MessageIn, NextFrame;
    assert (t + [In(Sig(s))])[..|t|] == t;
  }

  lemma PlayedMessageIn(t: Trace, qs: seq<Request>, rs: seq<Reply>, in0: Bytes, b: Bytes, in1: Bytes, out0: Bytes,
                        out1: Bytes, r: Reply)
    requires Played(t, qs, rs, in0, b, out0, out1) && MessageIn(b, in1, r)
    ensures Played(t + [In(Gen(r.tag))], qs, rs + [r], in0, in1, out0, out1)
  {
    hide WentOut, RequestOut, MessageIn, NextFrame;
    assert (t + [In(Gen(r.tag))])[..|t|] == t && (rs + [r])[..|rs|] == rs;
  }

  lemma PlayedSignalOut(t: Trace, qs: seq<Request>, rs: seq<Reply>, in0: Bytes, in1: Bytes, out0: Bytes, b: Bytes,
                        out1: Bytes, s: Signal)
    requires Played(t, qs, rs, in0, in1, out0, b) && WentOut(b, out1, SignalBytes(s))
    ensures Played(t + [Out(Sig(s))], qs, rs, in0, in1, out0, out1)
  {
    hide WentOut, RequestOut, MessageIn, NextFrame, SignalBytes;
    assert (t + [Out(Sig(s))])[..|t|] == t;
  }

  lemma PlayedRequestOut(t: Trace, qs: seq<Request>, rs: seq<Reply>, in0: Bytes, in1: Bytes, out0: Bytes, b: Bytes,
                         out1: Bytes, tag: Tag, q: Request)
    requires Played(t, qs, rs, in0, in1, out0, b) && RequestOut(b, out1, tag, q)
    ensures Played(t + [Out(Gen(tag))], qs + [q], rs, in0, in1, out0, out1)
  {
    hide WentOut, RequestOut, MessageIn, NextFrame, SignalBytes;
    var all, asked := t + [Out(Gen(tag))], qs + [q];
    assert all[..|all| - 1] == t && asked[..|asked| - 1] == qs && asked[|asked| - 1] == q;
    assert RequestOut(b, out1, tag, asked[|asked| - 1]);
  }

  /** Where records begin: so many entries in, with this still to come and this already sent. */
  datatype Mark = Mark(log: nat, requests: nat, replies: nat, bytesIn: Bytes, bytesOut: Bytes)

  /** The records from the mark on are what happened to the two byte streams since. */
  ghost predicate PlayedFrom(m: Mark, log: Trace, qs: seq<Request>, rs: seq<Reply>, bytesIn: Bytes, bytesOut: Bytes) {
    && m.log <= |log| && m.requests <= |qs| && m.replies <= |rs|
    && Played(log[m.log..], qs[m.requests..], rs[m.replies..], m.bytesIn, bytesIn, m.bytesOut, bytesOut)
  }

  lemma TookSignal(m: Mark, log: Trace, qs: seq<Request>, rs: seq<Reply>, b: Bytes, in1: Bytes, out1: Bytes, s: Signal)
    requires PlayedFrom(m, log, qs, rs, b, out1) && NextFrame(b) == Received(Common(s), in1)
    ensures PlayedFrom(m, log + [In(Sig(s))], qs, rs, in1, out1)
  {
    hide Played, NextFrame;
    assert (log + [In(Sig(s))])[m.log..] == log[m.log..] + [In(Sig(s))];
    PlayedSignalIn(log[m.log..], qs[m.requests..], rs[m.replies..], m.bytesIn, b, in1, m.bytesOut, out1, s);
  }

  lemma TookMessage(m: Mark, log: Trace, qs: seq<Request>, rs: seq<Reply>, b: Bytes, in1: Bytes, out1: Bytes, r: Reply)
    requires PlayedFrom(m, log, qs, rs, b, out1) && MessageIn(b, in1, r)
    ensures PlayedFrom(m, log + [In(Gen(r.tag))], qs, rs + [r], in1, out1)
  {
    hide Played, MessageIn;
    assert (log + [In(Gen(r.tag))])[m.log..] == log[m.log..] + [In(Gen(r.tag))];
    assert (rs + [r])[m.replies..] == rs[m.replies..] + [r];
    PlayedMessageIn(log[m.log..], qs[m.requests..], rs[m.replies..], m.bytesIn, b, in1, m.bytesOut, out1, r);
  }

  lemma PutSignal(m: Mark, log: Trace, qs: seq<Request>, rs: seq<Reply>, in1: Bytes, b: Bytes, out1: Bytes, s: Signal)
    requires PlayedFrom(m, log, qs, rs, in1, b) && WentOut(b, out1, SignalBytes(s))
    ensures PlayedFrom(m, log + [Out(Sig(s))], qs, rs, in1, out1)
  {
    hide Played, WentOut, SignalBytes;
    assert (log + [Out(Sig(s))])[m.log..] == log[m.log..] + [Out(Sig(s))];
    PlayedSignalOut(log[m.log..], qs[m.requests..], rs[m.replies..], m.bytesIn, in1, m.bytesOut, b, out1, s);
  }

  lemma PutRequest(m: Mark, log: Trace, qs: seq<Request>, rs: seq<Reply>, in1: Bytes, b: Bytes, out1: Bytes,
                   tag: Tag, q: Request)
    requires PlayedFrom(m, log, qs, rs, in1, b) && RequestOut(b, out1, tag, q)
    ensures PlayedFrom(m, log + [Out(Gen(tag))], qs + [q], rs, in1, out1)
  {
    hide Played, RequestOut;
    assert (log + [Out(Gen(tag))])[m.log..] == log[m.log..] + [Out(Gen(tag))];
    assert (qs + [q])[m.requests..] == qs[m.requests..] + [q];
    PlayedRequestOut(log[m.log..], qs[m.requests..], rs[m.replies..], m.bytesIn, in1, m.bytesOut, b, out1, tag, q);
  }

  /** The two connections of the environment, each replaced when a session is opened: `req` asks the
      device for one, `conn` is the one the device makes. */
  class Link {
    const heap: Heap
    var conn: Net.Socket
    var req: Net.Socket
    ghost var log: Trace
    ghost var requests: seq<Request>
    ghost var replies: seq<Reply>
    ghost var from: Mark

    /** Before any session: descriptors of no connection. */
    constructor (heap: Heap)
      ensures this.heap == heap && log == [] && requests == [] && replies == []
      ensures fresh(conn) && fresh(req)
    {
      this.heap := heap;
      conn := new Net.Socket([], true);
      req := new Net.Socket([], true);
      log, requests, replies, from := [], [], [], Mark(0, 0, 0, [], []);
    }

    /** The next byte to be received starts a frame of a readable stream. */
    predicate Open()
      reads this, conn
    {
      StreamOk(conn.incoming)
    }

    /** And the records since they were begun tell all that has happened on the connection. */
    ghost predicate Synced()
      reads this, conn
    {
      Open() && PlayedFrom(from, log, requests, replies, conn.incoming, conn.outgoing)
    }

    /** From here on the connection has no fault and no allocation fails. */
    ghost predicate Calm()
      reads this`conn, conn, heap
    {
      !conn.faulty && NoFailureFrom(heap.fails, heap.calls)
    }

    /** And these are the frames the device sends next. */
    ghost predicate Smooth(ls: seq<Label>)
      reads this`conn, conn, heap
    {
      Calm() && Has(conn.incoming, ls)
    }

    /** The records of the connection start here. */
    ghost predicate Begun(log: nat, requests: nat, replies: nat, bytesIn: Bytes)
      reads this`from
    {
      from == Mark(log, requests, replies, bytesIn, [])
    }

    /** On a connection whose records do not tell all, begin them anew. */
    ghost method Resume()
      requires Open()
      modifies this`from
      ensures Synced() && (old(Synced()) ==> from == old(from))
    {
      if !Synced() {
        from := Mark(|log|, |requests|, |replies|, conn.incoming, conn.outgoing);
      }
    }

    /** A new connection to the device. */
    method Dial(faulty: bool)
      modifies this`req
      ensures fresh(req) && req.outgoing == [] && req.faulty == faulty
    {
      req := new Net.Socket([], faulty);
    }

    /** The device connects back; this is all it will ever send. Records begin. */
    method Accept(stream: Bytes, faulty: bool)
      requires StreamOk(stream)
      modifies this`conn, this`from
      ensures fresh(conn) && conn.incoming == stream && conn.outgoing == [] && conn.faulty == faulty
      ensures Synced() && Begun(|log|, |requests|, |replies|, stream)
    {
      conn := new Net.Socket(stream, faulty);
      from := Mark(|log|, |requests|, |replies|, stream, []);
    }

    /** A received message: its raw block is new, and it owns no password. */
    ghost predicate Arrived(msg: Msg, before: set<nat>)
      reads this, heap, msg
    {
      msg.PwBlock() == Null && (msg.raw.Block? ==> msg.raw.id in heap.live && msg.raw.id !in before)
    }

    /** _zdtm_recv_message, recorded: every frame that was taken from the stream, even one whose content
        could then not be stored or not be parsed. */
    method Receive(msg: Msg) returns (r: int)
      requires Synced() && heap.Valid() && msg.Zeroed()
      modifies this`log, this`replies, conn`incoming, heap, msg
      ensures heap.Valid() && old(heap.calls) <= heap.calls && old(heap.retired) <= heap.retired
      ensures old(heap.live) <= heap.live
      ensures Arrived(msg, old(heap.live)) && OnlyContent(old(heap.live) + Target(msg.raw), heap.live)
      ensures old(Calm()) && NextFrame(old(conn.incoming)).Received? ==>
                var n := NextFrame(old(conn.incoming));
                && conn.incoming == n.rest
                && (n.frame.Common? ==> r == Net.SignalResult(n.frame.signal))
                && (n.frame.General? && DeviceTag(n.frame.tag) ==>
                      r == 0 && msg.tag == n.frame.tag && msg.rawBytes == n.frame.content)
      ensures r <= 3 && (r >= 0 || r in {RET_MEM_CONTENT, RET_PARSE_RAW_FAIL} ==> Synced())
      ensures r < 0 && r !in {RET_MEM_CONTENT, RET_PARSE_RAW_FAIL} ==> log == old(log) && replies == old(replies)
      ensures r in {RET_MEM_CONTENT, RET_PARSE_RAW_FAIL} ==>
                |replies| == |old(replies)| + 1 && old(replies) <= replies
                && log == old(log) + [In(Gen(replies[|old(replies)|].tag))]
      ensures r > 0 ==> log == old(log) + [In(Sig(CodeSignal(r)))] && replies == old(replies)
                        && unchanged(msg) && heap.live == old(heap.live)
      ensures r == 0 ==> log == old(log) + [In(Gen(msg.tag))] && replies == old(replies) + [Reply(msg.tag, msg.rawBytes)]
                         && Says(msg.tag, msg.rawBytes, msg.cont) && Holdable(msg.tag, msg.rawBytes)
                         && Claims(Holdings(msg.tag, msg.cont), old(heap.live) + Target(msg.raw), heap.live)
    {
      hide Says, Claims, Holdings, PlayedFrom, Holdable, OnlyContent;
      ghost var stream := conn.incoming;
      r := Net.RecvMessage(conn, heap, msg);
      NoContent(old(heap.live) + Target(msg.raw));
      assert r != 0 ==> heap.live == old(heap.live) + Target(msg.raw);
      if r > 0 {
        TookSignal(from, log, requests, replies, stream, conn.incoming, conn.outgoing, CodeSignal(r));
        log := log + [In(Sig(CodeSignal(r)))];
      } else if r == 0 || r == RET_MEM_CONTENT || r == RET_PARSE_RAW_FAIL {
        ghost var frame := NextFrame(stream).frame;
        ghost var reply := Reply(frame.tag, frame.content);
        TookMessage(from, log, requests, replies, stream, conn.incoming, conn.outgoing, reply);
        log, replies := log + [In(Gen(frame.tag))], replies + [reply];
        if r == 0 {
          SomeContent(msg.tag, msg.cont, old(heap.live) + Target(msg.raw), heap.live);
          Delivered(msg.tag, msg.rawBytes, msg.cont, old(heap.live) + Target(msg.raw), heap.live);
        }
      }
    }

    lemma Delivered(tag: Tag, body: Bytes, c: Content, before: set<nat>, after: set<nat>)
      requires Says(tag, body, c) && Claims(Holdings(tag, c), before, after)
      ensures tag != RRL && before <= after
    {
    }

    /** _zdtm_send_rqst_message and its two siblings, recorded. */
    method SendSignal(s: Signal) returns (r: int)
      requires Synced()
      modifies this`log, conn`outgoing
      ensures (r == 0 || r == -1) && (!conn.faulty ==> r == 0)
      ensures r == 0 ==> WentOut(old(conn.outgoing), conn.outgoing, SignalBytes(s))
      ensures r == 0 ==> Synced() && log == old(log) + [Out(Sig(s))]
      ensures r != 0 ==> log == old(log)
    {
      hide PlayedFrom, StreamOk, SignalBytes;
      ghost var put := conn.outgoing;
      ghost var ks;
      r, ks := Net.SendSignal(conn, s);
      if r == 0 {
        PutSignal(from, log, requests, replies, conn.incoming, put, conn.outgoing, s);
        log := log + [Out(Sig(s))];
      }
    }

    /** _zdtm_send_message, recorded. Whatever happens, the message owns nothing afterwards. */
    method SendMessage(msg: Msg) returns (r: int)
      requires Synced() && heap.Valid()
      requires msg.cont.Sent? && Ready(msg.tag, msg.cont.request) && msg.raw == Null && msg.Owned(heap)
      modifies this`log, this`requests, conn`outgoing, heap, msg
      ensures heap.Valid() && old(heap.calls) <= heap.calls && old(heap.retired) <= heap.retired
      ensures msg.tag == old(msg.tag) && msg.raw == Null && msg.PwBlock() == Null
      ensures heap.live == old(heap.live) - Target(old(msg.PwBlock())) && Target(old(msg.PwBlock())) <= heap.retired
      ensures r == 0 ==> Synced() && log == old(log) + [Out(Gen(msg.tag))]
                         && requests == old(requests) + [Erased(old(msg.cont.request))]
      ensures r == 0 ==> RequestOut(old(conn.outgoing), conn.outgoing, msg.tag, Erased(old(msg.cont.request)))
      ensures r != 0 ==> log == old(log) && requests == old(requests)
      ensures old(Calm()) && !NoWriter(old(msg.cont.request)) ==> r == 0
    {
      hide PlayedFrom, StreamOk, Ready, RequestOut, RequestBytes, ContSize, EncodeFrame, Net.Chunks, Net.Emitted;
      hide Net.RequestFrame;
      ghost var put, q := conn.outgoing, msg.cont.request;
      ghost var content, ks;
      ReadyFacts(msg.tag, q);
      r, content, ks := Net.SendMessageTo(conn, heap, msg);
      if r == 0 {
        WrittenOut(put, conn.outgoing, msg.tag, q, content, ks);
        PutRequest(from, log, requests, replies, conn.incoming, put, conn.outgoing, msg.tag, Erased(q));
        log, requests := log + [Out(Gen(msg.tag))], requests + [Erased(q)];
      }
    }

    /** RAY over the connection that asks the device for a session. */
    method Announce() returns (r: int)
      requires heap.Valid()
      modifies this`log, req`outgoing, heap
      ensures heap.Valid() && old(heap.calls) <= heap.calls && old(heap.retired) <= heap.retired
      ensures heap.live == old(heap.live)
      ensures r == 0 ==> log == old(log) + [Knock(RAY)] && RequestOut(old(req.outgoing), req.outgoing, RAY, Bare)
      ensures r != 0 ==> log == old(log)
      ensures !req.faulty && NoFailureFrom(heap.fails, old(heap.calls)) ==> r == 0
    {
      hide RequestOut, RequestBytes, ContSize, EncodeFrame, Net.Chunks, Net.Emitted, Net.RequestFrame;
      FixedSizeIsReady(RAY, Bare);
      ghost var put := req.outgoing;
      ghost var content, ks;
      var msg := new Msg.Request(RAY, Bare);
      r, content, ks := Net.SendMessageTo(req, heap, msg);
      if r == 0 {
        WrittenOut(put, req.outgoing, RAY, Bare, content, ks);
        log := log + [Knock(RAY)];
      }
      assert heap.live == old(heap.live);
    }

    /** Receive into a zeroed message and insist on one signal; anything else is cleaned up. */
    method Await(want: Signal) returns (r: int, ghost rest: Trace)
      requires Synced() && heap.Valid()
      modifies this`log, this`replies, conn`incoming, heap
      ensures heap.Valid() && old(heap.calls) <= heap.calls && old(heap.retired) <= heap.retired
      ensures old(heap.live) <= heap.live
      ensures old(replies) <= replies && OnlyContent(old(heap.live), heap.live)
      ensures r == Net.SignalResult(want) ==>
                Synced() && log == old(log) + [In(Sig(want))] && heap.live == old(heap.live) && replies == old(replies)
      ensures old(Smooth([Sig(want)])) ==>
                r == Net.SignalResult(want) && conn.incoming == After(old(conn.incoming), 1)
      ensures r != Net.SignalResult(want) ==> Unexpected(rest) && log == old(log) + rest
    {
      hide Holdable, Says, Claims, Holdings, Synced, OnlyContent;
      var rmsg := new Msg();
      r := Receive(rmsg);
      rest := log[|old(log)|..];
      assert r > 0 ==> rmsg.raw == Null && heap.live == old(heap.live) + Target(rmsg.raw);
      OnlyWithoutRaw(old(heap.live), rmsg.raw, heap.live);
      if r != Net.SignalResult(want) {
        ghost var kept := heap.live - Target(rmsg.raw);
        rmsg.Clean(heap);
        assert heap.live == kept;
      }
    }

    /** Wait for a request signal, send the message, wait for its acknowledgement. Unless the
        first wait already failed (-1), the message has been cleaned, and its password is freed. */
    method WrappedSend(msg: Msg) returns (r: int)
      requires Synced() && heap.Valid()
      requires msg.cont.Sent? && Ready(msg.tag, msg.cont.request) && msg.raw == Null && msg.Owned(heap)
      modifies this`log, this`requests, this`replies, conn, heap, msg
      ensures heap.Valid() && old(heap.calls) <= heap.calls && old(heap.retired) <= heap.retired
      ensures old(replies) <= replies
      ensures r in {0, -1, -2, -3} && msg.tag == old(msg.tag)
      ensures r == -1 ==> unchanged(msg) && old(heap.live) <= heap.live && OnlyContent(old(heap.live), heap.live)
      ensures r != -1 ==> msg.raw == Null && msg.PwBlock() == Null && Target(old(msg.PwBlock())) <= heap.retired
                          && old(heap.live) - Target(old(msg.PwBlock())) <= heap.live
      ensures r != -1 ==> OnlyContent(old(heap.live) - Target(old(msg.PwBlock())), heap.live)
      ensures r in {0, -2} ==> heap.live == old(heap.live) - Target(old(msg.PwBlock()))
      ensures r == 0 ==> Synced() && log == old(log) + Sending(msg.tag)
                         && requests == old(requests) + [Erased(old(msg.cont.request))] && replies == old(replies)
      ensures r == 0 ==> RequestOut(old(conn.outgoing), conn.outgoing, msg.tag, Erased(old(msg.cont.request)))
      ensures r != 0 ==> StraysFrom(old(log), log, Sending(msg.tag))
      ensures r == -1 ==> StraysFrom(old(log), log, [])
      ensures r == -2 ==> log == old(log) + [In(Sig(Rqst))]
      ensures r == -3 ==> StraysFrom(old(log) + [In(Sig(Rqst)), Out(Gen(msg.tag))], log, [])
      ensures old(Smooth(Taking())) && !NoWriter(old(msg.cont.request)) ==>
                r == 0 && conn.incoming == After(old(conn.incoming), 2)
    {
      hide Ready, StraysFrom, Unexpected, Synced, Sending, Has, After, RequestOut, NoWriter, OnlyContent;
      HasMore(conn.incoming, [Sig(Rqst)], [Sig(Ack)]);
      assert [Sig(Rqst)] + [Sig(Ack)] == [Sig(Rqst), Sig(Ack)];
      ghost var start, word := log, Sending(msg.tag);
      SendingInSteps(start, msg.tag);
      ghost var rest;
      r, rest := Await(Rqst);
      if r != 2 {
        Stray(start, log, word, 0, rest);
        Stray(start, log, [], 0, rest);
        return -1;
      }
      r := SendMessage(msg);
      NoContent(heap.live);
      if r != 0 {
        StrayNowhere(start, log, word, 1);
        return -2;
      }
      r, rest := Await(Ack);
      if r != 1 {
        Stray(start, log, word, 2, rest);
        Stray(start + [In(Sig(Rqst)), Out(Gen(msg.tag))], log, [], 0, rest);
        return -3;
      }
      r := 0;
    }

    /** Ask for a message, receive it, acknowledge it. A signal in its place is passed up. */
    method WrappedRecv(msg: Msg) returns (r: int)
      requires Synced() && heap.Valid() && msg.Zeroed()
      modifies this`log, this`replies, conn, heap, msg
      ensures heap.Valid() && old(heap.calls) <= heap.calls && old(heap.retired) <= heap.retired
      ensures old(heap.live) <= heap.live
      ensures Arrived(msg, old(heap.live)) && old(replies) <= replies
      ensures OnlyContent(old(heap.live) + Target(msg.raw), heap.live)
      ensures r in {0, 1, 2, 3, -1, -2, -3} && (r >= 0 ==> Synced())
      ensures old(conn.outgoing) <= conn.outgoing || r < 0
      ensures r == 0 ==> AskedAndThanked(old(conn.outgoing), conn.outgoing)
      ensures r > 0 ==> WentOut(old(conn.outgoing), conn.outgoing, SignalBytes(Rqst))
      ensures old(Calm()) && NextFrame(old(conn.incoming)).Received? ==>
                var n := NextFrame(old(conn.incoming));
                && conn.incoming == n.rest
                && (n.frame.Common? ==> r == Net.SignalResult(n.frame.signal))
                && (n.frame.General? && DeviceTag(n.frame.tag) ==>
                      r == 0 && msg.tag == n.frame.tag && msg.rawBytes == n.frame.content)
      ensures r == 0 ==> log == old(log) + Receiving(msg.tag) && replies == old(replies) + [Reply(msg.tag, msg.rawBytes)]
                         && Says(msg.tag, msg.rawBytes, msg.cont) && Holdable(msg.tag, msg.rawBytes)
                         && Claims(Holdings(msg.tag, msg.cont), old(heap.live) + Target(msg.raw), heap.live)
      ensures r > 0 ==> log == old(log) + [Out(Sig(Rqst)), In(Sig(CodeSignal(r)))] && replies == old(replies)
                        && heap.live == old(heap.live)
      ensures r < 0 ==> CutShort(old(log), log)
    {
      hide AskedAndThanked, Holdable, Says, Claims, Holdings, Synced, NextFrame, DeviceTag, SignalBytes, OnlyContent;
      NoContent(heap.live);
      assert heap.live + Target(msg.raw) == heap.live;
      r := SendSignal(Rqst);
      if r != 0 {
        return -1;
      }
      ghost var mid := conn.outgoing;
      r := Receive(msg);
      if r < 0 {
        return -2;
      } else if r > 0 {
        assert log == old(log) + [Out(Sig(Rqst)), In(Sig(CodeSignal(r)))];
        return r;
      }
      assert log == old(log) + [Out(Sig(Rqst)), In(Gen(msg.tag))];
      r := SendSignal(Ack);
      if r != 0 {
        return -3;
      }
      ThankedAfterAsking(old(conn.outgoing), mid, conn.outgoing);
      r := 0;
    }
  
    /** Receive a reply of one type behind what `head` has already put in the transcript. */
    method Answer(want: Tag, ghost start: Trace, ghost head: Trace) returns (r: int, rmsg: Msg)
      requires Synced() && heap.Valid() && log == start + head
      modifies this`log, this`replies, conn, heap
      ensures heap.Valid() && old(heap.calls) <= heap.calls && old(heap.retired) <= heap.retired
      ensures old(heap.live) <= heap.live
      ensures fresh(rmsg) && Arrived(rmsg, old(heap.live)) && rmsg.Owned(heap)
      ensures OnlyContent(old(heap.live) + Target(rmsg.raw), heap.live)
      ensures r in {0, -2, -3} && old(replies) <= replies
      ensures r == 0 ==> Synced() && log == start + (head + Receiving(want)) && rmsg.tag == want
                         && Says(want, rmsg.rawBytes, rmsg.cont) && Holdable(want, rmsg.rawBytes)
                         && replies == old(replies) + [Reply(want, rmsg.rawBytes)]
                         && Claims(Holdings(want, rmsg.cont), old(heap.live) + Target(rmsg.raw), heap.live)
      ensures r == 0 ==> old(conn.outgoing) <= conn.outgoing && AskedAndThanked(old(conn.outgoing), conn.outgoing)
      ensures DeviceTag(want) && old(Smooth([Gen(want)])) ==>
                r == 0 && conn.incoming == After(old(conn.incoming), 1)
                && rmsg.rawBytes == BodyAt(old(conn.incoming), 0)
      ensures r != 0 ==> StraysFrom(start, log, head + Receiving(want)) && log != start + (head + Receiving(want))
    {
      hide AskedAndThanked;
      hide Holdable, Says, Claims, Holdings, StraysFrom, Synced, CutShort, Receiving, OnlyContent;
      rmsg := new Msg();
      r := WrappedRecv(rmsg);
      if r != 0 {
        ShortOfAnswer(old(log), log, want);
        AnswerStrays(start, old(log), log, head, want);
        return -2, rmsg;
      }
      if rmsg.tag != want {
        ShortOfAnswer(old(log), log, want);
        AnswerStrays(start, old(log), log, head, want);
        return -3, rmsg;
      }
      assert start + head + Receiving(want) == start + (head + Receiving(want));
    }

    /** An answer of which only the type matters. */
    method Hear(want: Tag, ghost start: Trace, ghost head: Trace) returns (r: int)
      requires Synced() && heap.Valid() && log == start + head
      modifies this`log, this`replies, conn, heap
      ensures heap.Valid() && old(heap.calls) <= heap.calls && old(heap.retired) <= heap.retired
      ensures old(heap.live) <= heap.live
      ensures OnlyContent(old(heap.live), heap.live)
      ensures r in {0, -2, -3} && old(replies) <= replies
      ensures r == 0 ==> Synced() && log == start + (head + Receiving(want)) && |replies| == |old(replies)| + 1
      ensures DeviceTag(want) && old(Smooth([Gen(want)])) ==>
                r == 0 && conn.incoming == After(old(conn.incoming), 1)
      ensures r != 0 ==> StraysFrom(start, log, head + Receiving(want)) && log != start + (head + Receiving(want))
    {
      hide Holdable, Says, Claims, Holdings, StraysFrom, Synced, Receiving, After, BodyAt, Smooth, DeviceTag;
      hide OnlyContent;
      var rmsg;
      r, rmsg := Answer(want, start, head);
      OnlyWithoutRaw(old(heap.live), rmsg.raw, heap.live);
      ghost var kept := heap.live - Target(rmsg.raw);
      rmsg.Clean(heap);
      assert heap.live == kept;
    }

    /** A plain exchange: send a request, receive a reply of the wanted type. A reply of another type is
        cleaned up, and so is what a failed receive left, if `thorough`. */
    method Ask(tag: Tag, q: Request, want: Tag, thorough: bool) returns (r: int, rmsg: Msg)
      requires Synced() && heap.Valid() && Ready(tag, q) && tag != RRL
      modifies this`log, this`requests, this`replies, conn, heap
      ensures heap.Valid() && old(heap.calls) <= heap.calls && old(heap.retired) <= heap.retired
      ensures old(heap.live) <= heap.live
      ensures fresh(rmsg) && (r == 0 ==> Arrived(rmsg, old(heap.live)) && rmsg.Owned(heap))
      ensures r in {0, -1, -2, -3} && old(replies) <= replies
      ensures r in {-1, -3} || (r == -2 && thorough) ==> OnlyContent(old(heap.live), heap.live)
      ensures r == 0 ==> Synced() && log == old(log) + Exchange(tag, want) && rmsg.tag == want
                         && requests == old(requests) + [Erased(q)]
                         && Says(want, rmsg.rawBytes, rmsg.cont) && Holdable(want, rmsg.rawBytes)
                         && replies == old(replies) + [Reply(want, rmsg.rawBytes)]
                         && Claims(Holdings(want, rmsg.cont), old(heap.live) + Target(rmsg.raw), heap.live)
      ensures r == 0 ==> Asked(old(conn.outgoing), conn.outgoing, tag, Erased(q))
      ensures DeviceTag(want) && !NoWriter(q) && old(Smooth(Serving(want))) ==>
                r == 0 && conn.incoming == After(old(conn.incoming), 3)
                && rmsg.rawBytes == BodyAt(old(conn.incoming), 2)
      ensures r != 0 ==> StraysFrom(old(log), log, Exchange(tag, want)) && log != old(log) + Exchange(tag, want)
    {
      hide AskedAndThanked;
      hide Holdable, Says, Claims, Holdings, StraysFrom, Synced, Receiving, Sending, Ready;
      hide Has, After, BodyAt, RequestOut, NoWriter, DeviceTag, OnlyContent;
      HasMore(conn.incoming, Taking(), [Gen(want)]);
      BodyMore(conn.incoming, 2, 0);
      var msg := new Msg.Request(tag, q);
      assert msg.PwBlock() == Null && old(heap.live) - Target(Null) == old(heap.live);
      r := WrappedSend(msg);
      if r != 0 {
        rmsg := new Msg();
        SendingInSteps(old(log), tag);
        StrayLength(old(log), log, Sending(tag));
        StrayInside(old(log), [], log, Sending(tag), Receiving(want)) by {
          assert old(log) + [] == old(log);
        }
        assert [] + Sending(tag) + Receiving(want) == Exchange(tag, want);
        return -1, rmsg;
      }
      assert heap.live == old(heap.live);
      ghost var mid := conn.outgoing;
      r, rmsg := Answer(want, old(log), Sending(tag));
      assert r == 0 ==> RequestOut(old(conn.outgoing), mid, tag, Erased(q)) && mid <= conn.outgoing
                        && AskedAndThanked(mid, conn.outgoing);
      if r == -3 || (r == -2 && thorough) {
        OnlyWithoutRaw(old(heap.live), rmsg.raw, heap.live);
        ghost var kept := heap.live - Target(rmsg.raw);
        rmsg.Clean(heap);
        assert heap.live == kept;
      }
    }

    /** A plain exchange, and the message that brought the reply cleaned up. */
    method Query(tag: Tag, q: Request, want: Tag, thorough: bool) returns (r: int, body: Bytes, cont: Content)
      requires Synced() && heap.Valid() && Ready(tag, q) && tag != RRL
      modifies this`log, this`requests, this`replies, conn, heap
      ensures heap.Valid() && old(heap.calls) <= heap.calls && old(heap.live) <= heap.live
      ensures r in {0, -1, -2, -3} && old(replies) <= replies
      ensures r in {-1, -3} || (r == -2 && thorough) ==> OnlyContent(old(heap.live), heap.live)
      ensures r == 0 ==> Synced() && log == old(log) + Exchange(tag, want)
                         && requests == old(requests) + [Erased(q)] && replies == old(replies) + [Reply(want, body)]
                         && Says(want, body, cont) && Holdable(want, body)
                         && Claims(Holdings(want, cont), old(heap.live), heap.live)
      ensures r == 0 ==> Asked(old(conn.outgoing), conn.outgoing, tag, Erased(q))
      ensures DeviceTag(want) && !NoWriter(q) && old(Smooth(Serving(want))) ==>
                r == 0 && conn.incoming == After(old(conn.incoming), 3) && body == BodyAt(old(conn.incoming), 2)
      ensures r != 0 ==> StraysFrom(old(log), log, Exchange(tag, want)) && log != old(log) + Exchange(tag, want)
    {
      hide Holdable, Says, Claims, Holdings, StraysFrom, Synced, Exchange, Ready, Smooth, Serving, After, BodyAt;
      hide Asked, NoWriter, DeviceTag, OnlyContent;
      var rmsg;
      r, rmsg := Ask(tag, q, want, thorough);
      body, cont := rmsg.rawBytes, rmsg.cont;
      if r == 0 {
        WithoutRaw(Holdings(want, cont), old(heap.live), rmsg.raw, heap.live);
        ghost var kept := heap.live - Target(rmsg.raw);
        rmsg.Clean(heap);
        assert heap.live == kept;
      }
    }
  }
}
