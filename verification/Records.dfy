/** What the records of a connection say about its bytes: everything taken from the peer is in them,
    everything sent is accounted for, and what was heard depends on the peer's bytes alone. */
module Records {
  import opened Wire
  import opened Requests
  import opened Messages
  import opened Frames
  import opened Transcripts
  import opened Links
  import Layouts
  import Net

  /** What frames amount to as received frames, and as replies. */
  function Labels(fs: seq<Frame>): seq<Label> {
    if fs == [] then [] else Labels(fs[..|fs| - 1]) + [LabelOf(fs[|fs| - 1])]
  }

  function RepliesOf(fs: seq<Frame>): seq<Reply> {
    if fs == [] then []
    else
      var f := fs[|fs| - 1];
      RepliesOf(fs[..|fs| - 1]) + if f.General? then [Reply(f.tag, f.content)] else []
  }

  lemma {:induction false} EncodeAllAppend(fs: seq<Frame>, f: Frame)
    ensures EncodeAll(fs + [f]) == EncodeAll(fs) + EncodeFrame(f)
  {
    hide EncodeFrame;
    if fs == [] {
      assert fs + [f] == [f] && [f][1..] == [];
    } else {
      assert (fs + [f])[1..] == fs[1..] + [f];
      EncodeAllAppend(fs[1..], f);
    }
  }

  /** The part of the incoming stream that is gone is made of well-formed frames, and they are the
      ones the transcript and the replies tell of: no byte was skipped or read twice. */
  lemma {:induction false} NothingUnheard(t: Trace, qs: seq<Request>, rs: seq<Reply>, in0: Bytes, in1: Bytes,
                                          out0: Bytes, out1: Bytes)
    returns (fs: seq<Frame>)
    requires Played(t, qs, rs, in0, in1, out0, out1)
    ensures forall f :: f in fs ==> WellFormed(f)
    ensures in0 == EncodeAll(fs) + in1 && Labels(fs) == Heard(t) && RepliesOf(fs) == rs
    decreases |t|
  {
    hide NextFrame, WellFormed, EncodeAll, EncodeFrame, WentOut, RequestOut;
    if t == [] {
      fs := [];
      assert EncodeAll(fs) == [] by { NoFrames(); }
      return;
    }
    var front, e := t[..|t| - 1], t[|t| - 1];
    match e {
      case Knock(_) => fs := NothingUnheard(front, qs, rs, in0, in1, out0, out1);
      case In(Sig(s)) =>
        var b :| NextFrame(b) == Received(Common(s), in1) && Played(front, qs, rs, in0, b, out0, out1);
        fs := NothingUnheard(front, qs, rs, in0, b, out0, out1);
        fs := OneMore(fs, in0, b, in1);
      case In(Gen(tag)) =>
        var r := rs[|rs| - 1];
        var b :| MessageIn(b, in1, r) && Played(front, qs, rs[..|rs| - 1], in0, b, out0, out1);
        fs := NothingUnheard(front, qs, rs[..|rs| - 1], in0, b, out0, out1);
        fs := OneMore(fs, in0, b, in1);
        assert rs == rs[..|rs| - 1] + [r];
      case Out(Sig(s)) =>
        var b :| WentOut(b, out1, SignalBytes(s)) && Played(front, qs, rs, in0, in1, out0, b);
        fs := NothingUnheard(front, qs, rs, in0, in1, out0, b);
      case Out(Gen(tag)) =>
        var q := qs[|qs| - 1];
        var b :| RequestOut(b, out1, tag, q) && Played(front, qs[..|qs| - 1], rs, in0, in1, out0, b);
        fs := NothingUnheard(front, qs[..|qs| - 1], rs, in0, in1, out0, b);
    }
  }

  lemma NoFrames()
    ensures EncodeAll([]) == []
  {
  }

  lemma OneMore(fs: seq<Frame>, in0: Bytes, b: Bytes, in1: Bytes) returns (gs: seq<Frame>)
    requires (forall f :: f in fs ==> WellFormed(f)) && in0 == EncodeAll(fs) + b
    requires NextFrame(b).Received? && NextFrame(b).rest == in1
    ensures (forall f :: f in gs ==> WellFormed(f)) && in0 == EncodeAll(gs) + in1
    ensures var f := NextFrame(b).frame;
            && Labels(gs) == Labels(fs) + [LabelOf(f)]
            && RepliesOf(gs) == RepliesOf(fs) + if f.General? then [Reply(f.tag, f.content)] else []
  {
    hide NextFrame, WellFormed, EncodeAll, EncodeFrame;
    var f := NextFrame(b).frame;
    ReceivedLayout(b);
    EncodeAllAppend(fs, f);
    gs := fs + [f];
    assert gs[..|gs| - 1] == fs;
  }

  /** The same number of frames in front of two tails of the same stream are the same frames. */
  lemma {:induction false} SameFrames(fs: seq<Frame>, gs: seq<Frame>, x: Bytes, y: Bytes)
    requires forall f :: f in fs || f in gs ==> WellFormed(f)
    requires |fs| == |gs| && EncodeAll(fs) + x == EncodeAll(gs) + y
    ensures fs == gs && x == y
  {
    hide WellFormed, EncodeFrame;
    if fs == [] {
      assert EncodeAll(fs) + x == x && EncodeAll(gs) + y == y;
    } else {
      var a, b := EncodeAll(fs[1..]) + x, EncodeAll(gs[1..]) + y;
      assert EncodeAll(fs) + x == EncodeFrame(fs[0]) + a && EncodeAll(gs) + y == EncodeFrame(gs[0]) + b;
      FrameReadsBack(fs[0], a);
      FrameReadsBack(gs[0], b);
      SameFrames(fs[1..], gs[1..], x, y);
      assert fs == [fs[0]] + fs[1..] && gs == [gs[0]] + gs[1..];
    }
  }

  lemma {:induction false} AsManyLabels(fs: seq<Frame>)
    ensures |Labels(fs)| == |fs|
  {
    if fs != [] {
      AsManyLabels(fs[..|fs| - 1]);
    }
  }

  /** Two runs against the same incoming bytes that have taken as many frames have heard the same:
      neither the cutting of the bytes nor anything else the library does has a part in it. */
  lemma HearingIsDetermined(t: Trace, qs: seq<Request>, rs: seq<Reply>, in1: Bytes, out0: Bytes, out1: Bytes,
                            t': Trace, qs': seq<Request>, rs': seq<Reply>, in1': Bytes, out0': Bytes, out1': Bytes,
                            in0: Bytes)
    requires Played(t, qs, rs, in0, in1, out0, out1) && Played(t', qs', rs', in0, in1', out0', out1')
    requires |Heard(t)| == |Heard(t')|
    ensures Heard(t) == Heard(t') && rs == rs' && in1 == in1'
  {
    hide Played, WellFormed, EncodeAll, Labels, RepliesOf, Heard;
    var fs := NothingUnheard(t, qs, rs, in0, in1, out0, out1);
    var gs := NothingUnheard(t', qs', rs', in0, in1', out0', out1');
    AsManyLabels(fs);
    AsManyLabels(gs);
    SameFrames(fs, gs, in1, in1');
  }

  /** The bytes the frames of a transcript measure: signals seven, requests header, sizes, type,
      content and checksum. */
  function Octets(t: Trace, qs: seq<Request>): nat {
    if t == [] then 0
    else
      var front, e := t[..|t| - 1], t[|t| - 1];
      if !e.Out? then Octets(front, qs)
      else if e.frame.Sig? then Octets(front, qs) + COM_MSG_SIZE
      else if qs == [] then 0
      else Octets(front, qs[..|qs| - 1]) + (MSG_HDR_SIZE + 2 + MSG_TYPE_SIZE + ContSize(qs[|qs| - 1]) + 2)
  }

  lemma WentOutLength(before: Bytes, after: Bytes, wire: Bytes)
    requires WentOut(before, after, wire)
    ensures |after| == |before| + |wire|
  {
    var ks :| Net.Chunks(ks, |wire|) && after == before + Net.Emitted(wire, ks);
    Net.EmittedLength(wire, ks);
  }

  lemma RequestOutLength(before: Bytes, after: Bytes, tag: Tag, q: Request)
    requires RequestOut(before, after, tag, q)
    ensures |after| == |before| + MSG_HDR_SIZE + 2 + MSG_TYPE_SIZE + ContSize(q) + 2
  {
    hide WentOut, ContSize, RequestBytes, Shaped, Layouts.Carries;
    var content: Content16 :|
      |content| == ContSize(q) && Layouts.Carries(content, q)
      && WentOut(before, after, EncodeFrame(Net.RequestFrame(tag, content)));
    WentOutLength(before, after, EncodeFrame(Net.RequestFrame(tag, content)));
  }

  /** However partial the sends, exactly as many bytes have gone out as the recorded frames measure. */
  lemma {:induction false} NothingUnaccounted(t: Trace, qs: seq<Request>, rs: seq<Reply>, in0: Bytes, in1: Bytes,
                                              out0: Bytes, out1: Bytes)
    requires Played(t, qs, rs, in0, in1, out0, out1)
    ensures |out1| == |out0| + Octets(t, qs)
    decreases |t|
  {
    hide NextFrame, WentOut, RequestOut, ContSize, SignalBytes;
    if t != [] {
      var front, e := t[..|t| - 1], t[|t| - 1];
      match e {
        case Knock(_) => NothingUnaccounted(front, qs, rs, in0, in1, out0, out1);
        case In(Sig(s)) =>
          var b :| NextFrame(b) == Received(Common(s), in1) && Played(front, qs, rs, in0, b, out0, out1);
          NothingUnaccounted(front, qs, rs, in0, b, out0, out1);
        case In(Gen(tag)) =>
          var b :| MessageIn(b, in1, rs[|rs| - 1]) && Played(front, qs, rs[..|rs| - 1], in0, b, out0, out1);
          NothingUnaccounted(front, qs, rs[..|rs| - 1], in0, b, out0, out1);
        case Out(Sig(s)) =>
          var b :| WentOut(b, out1, SignalBytes(s)) && Played(front, qs, rs, in0, in1, out0, b);
          NothingUnaccounted(front, qs, rs, in0, in1, out0, b);
          WentOutLength(b, out1, SignalBytes(s));
        case Out(Gen(tag)) =>
          var q := qs[|qs| - 1];
          var b :| RequestOut(b, out1, tag, q) && Played(front, qs[..|qs| - 1], rs, in0, in1, out0, b);
          NothingUnaccounted(front, qs[..|qs| - 1], rs, in0, in1, out0, b);
          RequestOutLength(b, out1, tag, q);
      }
    }
  }
}
