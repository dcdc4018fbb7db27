/** Frames on the wire: the three 7-byte signals and the general frame, how the front of a
    byte stream is read as a frame, and that streams of frames decode in only one way. */
module Frames {
  import opened Wire
  import opened Replies

  const COM_MSG_SIZE := 7
  const MSG_HDR_SIZE := 13

  datatype Signal = Ack | Rqst | Abrt

  function SignalCode(s: Signal): Byte {
    match s
    case Ack => 0x06
    case Rqst => 0x05
    case Abrt => 0x18
  }

  function SignalBytes(s: Signal): (b: Bytes)
    ensures |b| == COM_MSG_SIZE
  {
    [0, 0, 0, 0, 0, 0x96, SignalCode(s)]
  }

  predicate IsSignal(s: Signal, buff: Bytes)
    requires |buff| >= COM_MSG_SIZE
  {
    buff[..COM_MSG_SIZE] == SignalBytes(s)
  }

  /** The header of every frame the device sends. */
  const ZMSG_HDR: Bytes := [0, 0, 0, 0, 0, 0x96, 1, 1, 0, 0xff, 0xff, 0xff, 0xff]

  /** The header of a frame the desktop sends, with the content size at offset 9. */
  function DesktopHeader(contSize: U16): (h: Bytes)
    ensures |h| == MSG_HDR_SIZE && Get16(h[9..]) == contSize
  {
    var h := [0, 0, 0, 0, 0, 0x96, 1, 1, 0x0c] + Put16(contSize) + [0, 0];
    assert h[9..] == Put16(contSize) + [0, 0];
    GetFromFront(Put16(contSize), [0, 0]);
    h
  }

  predicate NoSignal(buff: Bytes)
    requires |buff| >= COM_MSG_SIZE
  {
    !IsSignal(Ack, buff) && !IsSignal(Rqst, buff) && !IsSignal(Abrt, buff)
  }

  /** Content that leaves room for the type in a 16-bit body size. */
  type Content16 = s: Bytes | 3 + |s| < 0x1_0000

  datatype Frame =
    | Common(signal: Signal)
    | General(header: Bytes, tag: Tag, content: Content16, checkSum: U16)

  /** The parser that runs on a received body finds everything it reads. */
  predicate BodyFits(tag: Tag, content: Bytes) {
    if tag == AAY then |content| >= 3
    else if tag == AIG then DecodeAig(content).Good?
    else if tag == AMG then |content| >= 49
    else if tag == ATG then |content| >= 14
    else if tag == ANG then |content| >= 1
    else if tag == ADI then DecodeAdi(content).Good?
    else if tag == ASY then DecodeAsy(content).Good?
    else if tag == ADR then DecodeAdr(content).Good?
    else if tag == ADW then |content| >= 10
    else true
  }

  /** The types the receiver has a parser for. */
  predicate DeviceTag(tag: Tag) {
    tag in [AAY, AIG, AMG, ATG, AEX, ANG, ADI, ASY, ADR, ADW]
  }

  /** A 13-byte header that is not a signal, and a body its parser can read. */
  predicate WellFormed(f: Frame) {
    f.General? ==>
      && |f.header| == MSG_HDR_SIZE
      && NoSignal(f.header)
      && BodyFits(f.tag, f.content)
  }

  function EncodeFrame(f: Frame): Bytes
  {
    match f
    case Common(s) => SignalBytes(s)
    case General(header, tag, content, checkSum) =>
      header + Put16(3 + |content|) + TagBytes(tag) + content + Put16(checkSum)
  }

  /** What the receiver makes of a stream: the peer closed between reads or inside one, a body
      too short for its own structure, or a frame and the stream behind it. */
  datatype Reception = Closed | Truncated | Malformed | Received(frame: Frame, rest: Bytes)

  function NextFrame(b: Bytes): Reception {
    if |b| == 0 then Closed
    else if |b| < COM_MSG_SIZE then Truncated
    else if IsSignal(Ack, b) then Received(Common(Ack), b[7..])
    else if IsSignal(Rqst, b) then Received(Common(Rqst), b[7..])
    else if IsSignal(Abrt, b) then Received(Common(Abrt), b[7..])
    else if |b| < 15 then Truncated
    else BodyAfter(b[..13], Get16(b[13..]), b[15..])
  }

  /** The body and checksum that follow a header and a body size. */
  function BodyAfter(header: Bytes, bodySize: U16, b: Bytes): Reception {
    if |b| == 0 then Closed
    else if |b| < bodySize + 2 then Truncated
    else if bodySize < 3 || !BodyFits(GetTag(b), b[3..bodySize]) then Malformed
    else Received(General(header, GetTag(b), b[3..bodySize], Get16(b[bodySize..])), b[bodySize + 2..])
  }

  lemma BodyOfFrame(f: Frame, rest: Bytes)
    requires f.General? && WellFormed(f)
    ensures BodyAfter(f.header, 3 + |f.content|, TagBytes(f.tag) + f.content + Put16(f.checkSum) + rest)
            == Received(f, rest)
  {
    var n := 3 + |f.content|;
    var b := TagBytes(f.tag) + f.content + Put16(f.checkSum) + rest;
    assert b[..3] == TagBytes(f.tag) && b[3..n] == f.content && b[n..] == Put16(f.checkSum) + rest;
    assert GetTag(b) == GetTag(b[..3]);
    GetFromFront(Put16(f.checkSum), rest);
    assert b[n + 2..] == rest;
  }

  lemma LayInOrder(header: Bytes, size: Bytes, tail: Bytes)
    requires |header| == 13 && |size| == 2
    ensures var b := header + (size + tail);
            |b| >= 15 && b[..13] == header && b[13..] == size + tail && b[15..] == tail
  {
    var b := header + (size + tail);
    assert b[15..] == (size + tail)[2..];
  }

  lemma HeaderOfFrame(f: Frame, rest: Bytes)
    requires f.General? && WellFormed(f)
    ensures var b := EncodeFrame(f) + rest;
            && |b| >= 15 && b[..13] == f.header && Get16(b[13..]) == 3 + |f.content|
            && b[15..] == TagBytes(f.tag) + f.content + Put16(f.checkSum) + rest
            && NoSignal(b)
  {
    var b := EncodeFrame(f) + rest;
    var tail := TagBytes(f.tag) + f.content + Put16(f.checkSum) + rest;
    assert b == f.header + (Put16(3 + |f.content|) + tail);
    LayInOrder(f.header, Put16(3 + |f.content|), tail);
    GetFromFront(Put16(3 + |f.content|), tail);
    assert b[..7] == f.header[..7];
  }

  /** A well-formed frame at the front of any stream is received as itself. */
  lemma FrameReadsBack(f: Frame, rest: Bytes)
    requires WellFormed(f)
    ensures NextFrame(EncodeFrame(f) + rest) == Received(f, rest)
  {
    var b := EncodeFrame(f) + rest;
    if f.Common? {
      assert b[..7] == SignalBytes(f.signal) && b[7..] == rest;
      assert b[6] == SignalCode(f.signal);
    } else {
      HeaderOfFrame(f, rest);
      BodyOfFrame(f, rest);
    }
  }

  /** The seven bytes of each signal, and how they are received. */
  lemma SignalsSpelled(rest: Bytes)
    ensures NextFrame([0, 0, 0, 0, 0, 0x96, 0x06] + rest) == Received(Common(Ack), rest)
    ensures NextFrame([0, 0, 0, 0, 0, 0x96, 0x05] + rest) == Received(Common(Rqst), rest)
    ensures NextFrame([0, 0, 0, 0, 0, 0x96, 0x18] + rest) == Received(Common(Abrt), rest)
  {
    FrameReadsBack(Common(Ack), rest);
    FrameReadsBack(Common(Rqst), rest);
    FrameReadsBack(Common(Abrt), rest);
  }

  /** The same of any stream that starts with seven such bytes. */
  lemma SignalInFront(b: Bytes)
    ensures [0, 0, 0, 0, 0, 0x96, 0x06] <= b ==> NextFrame(b) == Received(Common(Ack), b[7..])
    ensures [0, 0, 0, 0, 0, 0x96, 0x05] <= b ==> NextFrame(b) == Received(Common(Rqst), b[7..])
    ensures [0, 0, 0, 0, 0, 0x96, 0x18] <= b ==> NextFrame(b) == Received(Common(Abrt), b[7..])
  {
    hide NextFrame;
    if |b| >= 7 {
      SignalsSpelled(b[7..]);
      assert [0, 0, 0, 0, 0, 0x96, 0x06] <= b ==> b == [0, 0, 0, 0, 0, 0x96, 0x06] + b[7..];
      assert [0, 0, 0, 0, 0, 0x96, 0x05] <= b ==> b == [0, 0, 0, 0, 0, 0x96, 0x05] + b[7..];
      assert [0, 0, 0, 0, 0, 0x96, 0x18] <= b ==> b == [0, 0, 0, 0, 0, 0x96, 0x18] + b[7..];
    }
  }

  lemma BodyLayout(header: Bytes, n: U16, c: Bytes)
    requires BodyAfter(header, n, c).Received?
    ensures var r := BodyAfter(header, n, c);
            && r.frame.General? && r.frame.header == header && 3 + |r.frame.content| == n
            && BodyFits(r.frame.tag, r.frame.content)
            && c == TagBytes(r.frame.tag) + r.frame.content + Put16(r.frame.checkSum) + r.rest
  {
    Put16Get16(c[n..]);
    assert TagBytes(GetTag(c)) == c[..3];
    assert c == c[..3] + c[3..n] + c[n..][..2] + c[n + 2..];
  }

  /** Whatever is received was laid out on the wire in exactly that way. */
  lemma ReceivedLayout(b: Bytes)
    requires NextFrame(b).Received?
    ensures WellFormed(NextFrame(b).frame) && b == EncodeFrame(NextFrame(b).frame) + NextFrame(b).rest
  {
    var f, rest := NextFrame(b).frame, NextFrame(b).rest;
    if f.Common? {
      assert b == b[..7] + b[7..];
    } else {
      var n := Get16(b[13..]);
      BodyLayout(b[..13], n, b[15..]);
      Put16Get16(b[13..]);
      assert f.header[..7] == b[..7];
      var tail := TagBytes(f.tag) + f.content + Put16(f.checkSum);
      assert b == b[..13] + b[13..][..2] + b[15..];
      assert EncodeFrame(f) == b[..13] + Put16(n) + tail;
    }
  }

  // Whole streams.

  function EncodeAll(fs: seq<Frame>): Bytes
  {
    if fs == [] then [] else EncodeFrame(fs[0]) + EncodeAll(fs[1..])
  }

  /** Receiving until something other than a frame comes. */
  function ReceiveAll(b: Bytes): (r: (seq<Frame>, Reception))
    ensures !r.1.Received?
    decreases |b|
  {
    var n := NextFrame(b);
    if !n.Received? then ([], n)
    else
      assert |n.rest| < |b| by { RestShrinks(b); }
      var later := ReceiveAll(n.rest);
      ([n.frame] + later.0, later.1)
  }

  lemma RestShrinks(b: Bytes)
    ensures NextFrame(b).Received? ==> |NextFrame(b).rest| < |b|
  {
  }

  /** Frames laid end to end come back as the same list with nothing left over. */
  lemma {:induction false} StreamReadsBack(fs: seq<Frame>)
    requires forall f :: f in fs ==> WellFormed(f)
    ensures ReceiveAll(EncodeAll(fs)) == (fs, Closed)
  {
    if fs != [] {
      FrameReadsBack(fs[0], EncodeAll(fs[1..]));
      StreamReadsBack(fs[1..]);
      assert [fs[0]] + fs[1..] == fs;
    }
  }

  /** No byte stream is the concatenation of two different lists of frames. */
  lemma UniqueDecoding(fs: seq<Frame>, gs: seq<Frame>)
    requires forall f :: f in fs || f in gs ==> WellFormed(f)
    requires EncodeAll(fs) == EncodeAll(gs)
    ensures fs == gs
  {
    StreamReadsBack(fs);
    StreamReadsBack(gs);
  }

  /** Among streams that start like every fixed header, the seventh byte alone tells the kind. */
  lemma SeventhByteDecides(b: Bytes, s: Signal)
    requires |b| >= COM_MSG_SIZE && b[..6] == ZMSG_HDR[..6]
    ensures NextFrame(b) == Received(Common(s), b[7..]) <==> b[6] == SignalCode(s)
  {
    assert b[..7] == b[..6] + [b[6]];
    assert SignalBytes(s) == ZMSG_HDR[..6] + [SignalCode(s)];
    assert SignalBytes(Ack)[6] == 0x06 && SignalBytes(Rqst)[6] == 0x05 && SignalBytes(Abrt)[6] == 0x18;
  }

  /** Neither side's general header can be taken for a signal. */
  lemma FixedHeadersAreGeneral(contSize: U16)
    ensures NoSignal(ZMSG_HDR) && NoSignal(DesktopHeader(contSize))
  {
    assert SignalBytes(Ack)[6] == 0x06 && SignalBytes(Rqst)[6] == 0x05 && SignalBytes(Abrt)[6] == 0x18;
    assert ZMSG_HDR[..7][6] == 1 && DesktopHeader(contSize)[..7][6] == 1;
  }

  /** A general frame cut after k bytes: the receiver sees a clean close only where no byte of the
      current read has come, before the header and between body size and body. */
  lemma CutGeneralFrame(f: Frame, k: nat)
    requires f.General? && WellFormed(f) && k < |EncodeFrame(f)|
    ensures NextFrame(EncodeFrame(f)[..k]) == if k == 0 || k == 15 then Closed else Truncated
  {
    var b, c := EncodeFrame(f), EncodeFrame(f)[..k];
    HeaderOfFrame(f, []);
    assert b + [] == b;
    if k >= COM_MSG_SIZE {
      assert c[..7] == b[..7];
    }
    if k >= 15 {
      assert c[13..][..2] == b[13..][..2];
      assert Get16(c[13..]) == Get16(b[13..]) == 3 + |f.content|;
      assert |c[15..]| == k - 15 < 3 + |f.content| + 2;
    }
  }

  lemma CutSignal(s: Signal, k: nat)
    requires k < COM_MSG_SIZE
    ensures NextFrame(SignalBytes(s)[..k]) == if k == 0 then Closed else Truncated
  {
  }

  // Checksums.

  function ByteSum(b: Bytes): nat {
    if b == [] then 0 else ByteSum(b[..|b| - 1]) + b[|b| - 1]
  }

  /** The sum of type and content bytes, as far as 16 bits hold it. */
  function CheckSum(tag: Tag, content: Bytes): U16 {
    ByteSum(TagBytes(tag) + content) % 0x1_0000
  }

  lemma {:induction false} ByteSumBound(b: Bytes)
    ensures ByteSum(b) <= 255 * |b|
  {
    if b != [] {
      ByteSumBound(b[..|b| - 1]);
    }
  }

  lemma {:induction false} ByteSumOfMax(n: nat)
    ensures ByteSum(seq(n, _ => 255)) == 255 * n
  {
    if n > 0 {
      var s: Bytes := seq(n, _ => 255);
      assert s[..n - 1] == seq(n - 1, _ => 255);
      ByteSumOfMax(n - 1);
    }
  }

  /** Reduction modulo 65536 loses nothing for every body of a size exactly up to 257 bytes. */
  lemma ChecksumIsExactUpTo257(n: nat)
    ensures (forall b: Bytes :: |b| == n ==> ByteSum(b) % 0x1_0000 == ByteSum(b)) <==> n <= 257
  {
    forall b: Bytes | |b| == n && n <= 257 ensures ByteSum(b) % 0x1_0000 == ByteSum(b) {
      ByteSumBound(b);
    }
    if n > 257 {
      ByteSumOfMax(n);
      var s: Bytes := seq(n, _ => 255);
      assert |s| == n && ByteSum(s) % 0x1_0000 != ByteSum(s);
    }
  }
}
