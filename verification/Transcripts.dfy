/** The order of frames in a session: what each stage of the opening handshake puts in the
    transcript, and what can be said of transcripts that follow that order. */
module Transcripts {
  import opened Wire
  import opened Frames

  datatype Label = Sig(signal: Signal) | Gen(tag: Tag)

  /** A frame taken from the device (In), or sent to it over the session connection (Out) or
      over the separate connection that asks for a session (Knock). */
  datatype Event = Knock(tag: Tag) | Out(frame: Label) | In(frame: Label)

  type Trace = seq<Event>

  function Sending(t: Tag): Trace {
    [In(Sig(Rqst)), Out(Gen(t)), In(Sig(Ack))]
  }

  function Receiving(t: Tag): Trace {
    [Out(Sig(Rqst)), In(Gen(t)), Out(Sig(Ack))]
  }

  function Exchange(request: Tag, reply: Tag): (t: Trace)
    ensures |t| == 6
  {
    Sending(request) + Receiving(reply)
  }

  /** A request answered by an abort and then a reason. */
  function Denial(request: Tag): (t: Trace)
    ensures |t| == 8
  {
    Sending(request) + [Out(Sig(Rqst)), In(Sig(Abrt))] + Receiving(ANG)
  }

  function Greeting(): (t: Trace)
    ensures |t| == 6
  {
    [Knock(RAY), Out(Gen(RAY)), In(Sig(Ack))] + Receiving(AAY)
  }

  function LogReset(): Trace {
    Denial(RMS) + Exchange(RMS, AEX)
  }

  /** The stages behind the passcode stage; `slow` switches the two resets. */
  function LaterStages(slow: bool): (s: seq<Trace>)
    ensures |s| == 7
  {
    [Exchange(RIG, AIG),
     Exchange(RMG, AMG),
     Exchange(RTG, ATG),
     if slow then LogReset() else [],
     Exchange(RTS, AEX),
     if slow then Exchange(RSS, AEX) else [],
     Exchange(RDI, ADI)]
  }

  /** Greeting, and the first query for device info unless it is already held. */
  function Opening(haveInfo: bool): Trace {
    Greeting() + if haveInfo then [] else Exchange(RIG, AIG)
  }

  /** The passcode stage, when it is due. */
  function Passcode(auth: bool): Trace {
    if auth then Exchange(RRL, AEX) else []
  }

  /** The transcript of a complete opening handshake. */
  function Handshake(haveInfo: bool, auth: bool, slow: bool): Trace {
    Opening(haveInfo) + Passcode(auth) + Concat(LaterStages(slow))
  }

  function Concat(s: seq<Trace>): Trace {
    if s == [] then [] else Concat(s[..|s| - 1]) + s[|s| - 1]
  }

  /** The handshake that ends with the passcode denied. */
  function Refusal(haveInfo: bool): Trace {
    Opening(haveInfo) + Denial(RRL)
  }

  /** What may follow the last expected frame of a failing run: nothing, one unexpected frame, or
      a general frame of the wrong type with the acknowledgement it was given. */
  predicate Unexpected(rest: Trace) {
    || rest == []
    || (|rest| == 1 && rest[0].In?)
    || (|rest| == 2 && rest[0].In? && rest[0].frame.Gen? && rest[1] == Out(Sig(Ack)))
  }

  /** From `before` to `after` the run kept to `word` up to some point, and then at most one
      unexpected frame came. */
  ghost predicate StraysFrom(before: Trace, after: Trace, word: Trace) {
    exists n, rest :: 0 <= n <= |word| && Unexpected(rest) && after == before + word[..n] + rest
  }

  lemma Stray(before: Trace, after: Trace, word: Trace, n: nat, rest: Trace)
    requires n <= |word| && Unexpected(rest) && after == before + word[..n] + rest
    ensures StraysFrom(before, after, word)
  {
  }

  lemma StrayNowhere(before: Trace, after: Trace, word: Trace, n: nat)
    requires n <= |word| && after == before + word[..n]
    ensures StraysFrom(before, after, word)
  {
    Stray(before, after, word, n, []);
  }

  lemma StrayLength(before: Trace, after: Trace, word: Trace)
    requires StraysFrom(before, after, word)
    ensures |before| <= |after| <= |before| + |word| + 2
  {
  }

  /** Straying inside a later part of a word is straying from the word. */
  lemma StrayInside(start: Trace, done: Trace, after: Trace, part: Trace, later: Trace)
    requires StraysFrom(start + done, after, part)
    ensures StraysFrom(start, after, done + part + later)
  {
    var n, rest :| 0 <= n <= |part| && Unexpected(rest) && after == start + done + part[..n] + rest;
    var word := done + part + later;
    assert word[..|done| + n] == done + part[..n];
    assert after == start + word[..|done| + n] + rest;
  }

  lemma {:induction false} ConcatSplit(s: seq<Trace>, k: nat)
    requires k < |s|
    ensures exists later :: Concat(s) == Concat(s[..k]) + s[k] + later
  {
    if k == |s| - 1 {
      assert Concat(s) == Concat(s[..k]) + s[k] + [];
    } else {
      var front := s[..|s| - 1];
      ConcatSplit(front, k);
      assert front[..k] == s[..k];
      var later :| Concat(front) == Concat(s[..k]) + s[k] + later;
      assert Concat(s) == Concat(s[..k]) + s[k] + (later + s[|s| - 1]);
    }
  }

  /** A run that has done the first k stages. */
  ghost predicate Reached(start: Trace, log: Trace, stages: seq<Trace>, k: nat)
    requires k <= |stages|
  {
    log == start + Concat(stages[..k])
  }

  /** A run that did the first k stages and broke off in the next, which is `stage`. */
  ghost predicate BrokeIn(start: Trace, log: Trace, stages: seq<Trace>, k: nat, stage: Trace) {
    k < |stages| && stages[k] == stage && StraysFrom(start + Concat(stages[..k]), log, stage)
  }

  lemma Advance(start: Trace, log: Trace, stages: seq<Trace>, k: nat)
    requires k < |stages| && Reached(start, log, stages, k)
    ensures Reached(start, log + stages[k], stages, k + 1)
  {
    assert stages[..k + 1][..k] == stages[..k];
  }

  lemma Fails(start: Trace, log: Trace, stages: seq<Trace>, k: nat, after: Trace)
    requires k < |stages| && Reached(start, log, stages, k) && StraysFrom(log, after, stages[k])
    requires if k < |stages| - 1 then |stages[|stages| - 1]| > 2 else after != log + stages[k]
    ensures StraysFrom(start, after, Concat(stages)) && after != start + Concat(stages)
    ensures BrokeIn(start, after, stages, k, stages[k])
  {
    ConcatSplit(stages, k);
    var later :| Concat(stages) == Concat(stages[..k]) + stages[k] + later;
    StrayInside(start, Concat(stages[..k]), after, stages[k], later);
    StrayLength(log, after, stages[k]);
    var n := |stages| - 1;
    if k < n {
      ConcatSplit(stages[..n], k);
      assert stages[..n][..k] == stages[..k];
    } else {
      assert stages[..k + 1] == stages && Concat(stages) == Concat(stages[..k]) + stages[k];
    }
  }

  // What a device says.

  function LabelOf(f: Frame): Label {
    match f
    case Common(s) => Sig(s)
    case General(_, tag, _, _) => Gen(tag)
  }

  /** The frames a transcript received, in order. */
  function Heard(t: Trace): seq<Label> {
    if t == [] then []
    else Heard(t[..|t| - 1]) + if t[|t| - 1].In? then [t[|t| - 1].frame] else []
  }

  /** The requests it sent over the session connection, in order. */
  function Told(t: Trace): seq<Tag> {
    if t == [] then []
    else Told(t[..|t| - 1]) + if t[|t| - 1].Out? && t[|t| - 1].frame.Gen? then [t[|t| - 1].frame.tag] else []
  }

  lemma {:induction false} SaidAppend(t: Trace, u: Trace)
    ensures Heard(t + u) == Heard(t) + Heard(u)
    ensures Told(t + u) == Told(t) + Told(u)
  {
    if u == [] {
      assert t + u == t;
    } else {
      assert (t + u)[..|t + u| - 1] == t + u[..|u| - 1];
      SaidAppend(t, u[..|u| - 1]);
    }
  }

  /** The device's part in taking a request, and in taking one and replying to it. */
  function Taking(): (ls: seq<Label>)
    ensures |ls| == 2
  {
    [Sig(Rqst), Sig(Ack)]
  }

  function Serving(reply: Tag): (ls: seq<Label>)
    ensures |ls| == 3 && ls == Taking() + [Gen(reply)]
  {
    [Sig(Rqst), Sig(Ack), Gen(reply)]
  }

  /** An abort and then its reason, in the place of a reply. */
  function Denying(): (ls: seq<Label>)
    ensures |ls| == 2 && ls == [Sig(Abrt)] + [Gen(ANG)]
  {
    [Sig(Abrt), Gen(ANG)]
  }

  /** The device's part in a session: the opening with the passcode stage, the queries, and what is
      settled behind them. */
  function OpeningLabels(haveInfo: bool, auth: bool): seq<Label> {
    [Sig(Ack)] + [Gen(AAY)] + (if haveInfo then [] else Serving(AIG)) + if auth then Serving(AEX) else []
  }

  function QueryLabels(): (ls: seq<Label>)
    ensures |ls| == 9
  {
    Serving(AIG) + Serving(AMG) + Serving(ATG)
  }

  function SettlingLabels(slow: bool): (ls: seq<Label>)
    ensures |ls| >= 6
  {
    (if slow then Taking() + Denying() + Serving(AEX) else []) + (Serving(AEX) + ClosingLabels(slow))
  }

  function ClosingLabels(slow: bool): (ls: seq<Label>)
    ensures |ls| >= 3
  {
    (if slow then Serving(AEX) else []) + Serving(ADI)
  }

  function HandshakeLabels(haveInfo: bool, auth: bool, slow: bool): (ls: seq<Label>)
    ensures |ls| > 0
  {
    OpeningLabels(haveInfo, auth) + QueryLabels() + SettlingLabels(slow)
  }

  /** A stream that starts with frames of these labels. */
  ghost predicate Has(b: Bytes, ls: seq<Label>)
    decreases |ls|
  {
    ls == [] || (NextFrame(b).Received? && LabelOf(NextFrame(b).frame) == ls[0] && Has(NextFrame(b).rest, ls[1..]))
  }

  /** The stream behind its first n frames. */
  function After(b: Bytes, n: nat): Bytes
    decreases n
  {
    if n == 0 || !NextFrame(b).Received? then b else After(NextFrame(b).rest, n - 1)
  }

  /** The content of the general frame behind the first n frames. */
  function BodyAt(b: Bytes, n: nat): Bytes {
    var f := NextFrame(After(b, n));
    if f.Received? && f.frame.General? then f.frame.content else []
  }

  lemma {:induction false} AfterMore(b: Bytes, m: nat, n: nat)
    ensures After(b, m + n) == After(After(b, m), n)
    decreases m
  {
    if m > 0 && NextFrame(b).Received? {
      AfterMore(NextFrame(b).rest, m - 1, n);
    } else if m > 0 {
      assert After(b, n) == b;
    }
  }

  lemma {:induction false} HasMore(b: Bytes, x: seq<Label>, y: seq<Label>)
    ensures Has(b, x + y) <==> Has(b, x) && Has(After(b, |x|), y)
    ensures After(After(b, |x|), |y|) == After(b, |x + y|)
    decreases |x|
  {
    AfterMore(b, |x|, |y|);
    if x == [] {
      assert x + y == y;
    } else {
      assert (x + y)[1..] == x[1..] + y;
      if NextFrame(b).Received? {
        HasMore(NextFrame(b).rest, x[1..], y);
      }
    }
  }

  lemma HasOne(b: Bytes, l: Label)
    ensures Has(b, [l]) <==> NextFrame(b).Received? && LabelOf(NextFrame(b).frame) == l
    ensures Has(b, [l]) ==> After(b, 1) == NextFrame(b).rest
  {
  }

  lemma BodyMore(b: Bytes, m: nat, n: nat)
    ensures BodyAt(After(b, m), n) == BodyAt(b, m + n)
  {
    AfterMore(b, m, n);
  }

  /** The labels, and the contents, of a list of frames, in front of anything. */
  lemma {:induction false} StreamHas(fs: seq<Frame>, rest: Bytes)
    requires forall f :: f in fs ==> WellFormed(f)
    ensures Has(EncodeAll(fs) + rest, seq(|fs|, i requires 0 <= i < |fs| => LabelOf(fs[i])))
    ensures After(EncodeAll(fs) + rest, |fs|) == rest
    ensures forall i :: 0 <= i < |fs| && fs[i].General? ==> BodyAt(EncodeAll(fs) + rest, i) == fs[i].content
  {
    hide WellFormed, EncodeFrame, NextFrame;
    if fs == [] {
      assert EncodeAll(fs) + rest == rest;
    } else {
      var b, later := EncodeAll(fs) + rest, EncodeAll(fs[1..]) + rest;
      assert b == EncodeFrame(fs[0]) + later;
      FrameReadsBack(fs[0], later);
      StreamHas(fs[1..], rest);
      var ls := seq(|fs|, i requires 0 <= i < |fs| => LabelOf(fs[i]));
      assert ls[1..] == seq(|fs[1..]|, i requires 0 <= i < |fs[1..]| => LabelOf(fs[1..][i]));
      forall i | 0 <= i < |fs| && fs[i].General? ensures BodyAt(b, i) == fs[i].content {
        if i > 0 {
          assert fs[1..][i - 1] == fs[i] && After(b, i) == After(later, i - 1);
        }
      }
    }
  }

  // Consequences for every transcript.

  /** The requests that must not go out before the passcode is accepted. */
  predicate Guarded(t: Tag) {
    t in [RMG, RTG, RMS, RTS, RSS, RDI]
  }

  predicate Quiet(t: Trace) {
    forall i :: 0 <= i < |t| ==> !(t[i].Out? && t[i].frame.Gen? && Guarded(t[i].frame.tag))
  }

  lemma OpeningIsQuiet(haveInfo: bool)
    ensures Quiet(Opening(haveInfo) + Exchange(RRL, AEX))
  {
    assert Quiet(Greeting()) && Quiet(Exchange(RIG, AIG)) && Quiet(Exchange(RRL, AEX));
  }

  /** A request sent in a straying run belongs to the word it strayed from. */
  lemma RequestInWord(start: Trace, log: Trace, word: Trace, n: nat, rest: Trace, i: nat)
    requires n <= |word| && Unexpected(rest) && log == start + word[..n] + rest
    requires |start| <= i < |log| && log[i].Out? && log[i].frame.Gen?
    ensures i < |start| + n && log[i] == word[i - |start|]
  {
  }

  /** In a run for which the passcode stage is due, a guarded request is preceded by a completed
      passcode request that was answered by AEX. */
  lemma GuardedNeedsPasscode(start: Trace, log: Trace, haveInfo: bool, slow: bool, i: nat)
    requires StraysFrom(start, log, Handshake(haveInfo, true, slow))
    requires |start| <= i < |log| && log[i].Out? && log[i].frame.Gen? && Guarded(log[i].frame.tag)
    ensures var k := |start| + |Opening(haveInfo)|;
            k + 6 <= i && log[k..k + 6] == Exchange(RRL, AEX)
  {
    hide Concat, LaterStages, Unexpected, Exchange, Opening, Guarded;
    var word := Handshake(haveInfo, true, slow);
    var n, rest :| 0 <= n <= |word| && Unexpected(rest) && log == start + word[..n] + rest;
    RequestInWord(start, log, word, n, rest, i);
    OpeningIsQuiet(haveInfo);
    var head := Opening(haveInfo) + Exchange(RRL, AEX);
    assert |head| <= i - |start|;
    forall j | 0 <= j < |head| ensures log[|start| + j] == head[j] {
      assert log[|start| + j] == word[..n][j];
    }
    var k := |start| + |Opening(haveInfo)|;
    assert log[k..k + 6] == head[|Opening(haveInfo)|..];
  }

  /** A refused run has sent no guarded request at all. */
  lemma RefusalIsQuiet(haveInfo: bool)
    ensures Quiet(Refusal(haveInfo))
  {
    assert Quiet(Greeting()) && Quiet(Exchange(RIG, AIG)) && Quiet(Denial(RRL));
  }

  /** Every guarded request of a run comes behind a passcode that was accepted in that run. */
  ghost predicate Gated(start: Trace, log: Trace, haveInfo: bool) {
    forall i :: |start| <= i < |log| && log[i].Out? && log[i].frame.Gen? && Guarded(log[i].frame.tag) ==>
                  var k := |start| + |Opening(haveInfo)|;
                  k + 6 <= i && log[k..k + 6] == Exchange(RRL, AEX)
  }

  /** So it is in every run for which the passcode stage is due, however the run ends. */
  lemma EveryRunIsGated(start: Trace, log: Trace, haveInfo: bool, slow: bool)
    requires StraysFrom(start, log, Handshake(haveInfo, true, slow)) || StraysFrom(start, log, Refusal(haveInfo))
    ensures Gated(start, log, haveInfo)
  {
    hide StraysFrom, Handshake, Refusal, Opening, Exchange, Guarded;
    forall i | |start| <= i < |log| && log[i].Out? && log[i].frame.Gen? && Guarded(log[i].frame.tag)
      ensures |start| + |Opening(haveInfo)| + 6 <= i
      ensures log[|start| + |Opening(haveInfo)|..|start| + |Opening(haveInfo)| + 6] == Exchange(RRL, AEX)
    {
      if StraysFrom(start, log, Refusal(haveInfo)) {
        NothingGuarded(start, log, haveInfo, i);
      } else {
        GuardedNeedsPasscode(start, log, haveInfo, slow, i);
      }
    }
  }

  /** And a run for which it is not due never sends the passcode. */
  ghost predicate Passless(start: Trace, log: Trace) {
    forall i :: |start| <= i < |log| ==> log[i] != Out(Gen(RRL))
  }

  /** So it is however zdtm_initiate_sync ends. */
  lemma RunEnded(start: Trace, log: Trace, known: bool, auth: bool, slow: bool, r: int)
    requires r <= 1
    requires r == 0 ==> log == start + Handshake(known, auth, slow)
    requires r == 1 ==> auth && log == start + Refusal(known)
    requires r < 0 ==>
               StraysFrom(start, log, Handshake(known, auth, slow)) || (auth && StraysFrom(start, log, Refusal(known)))
    ensures if auth then Gated(start, log, known) else Passless(start, log)
  {
    hide Handshake, Refusal, StraysFrom, Gated;
    if r == 0 {
      WholeWord(start, log, Handshake(known, auth, slow));
    } else if r == 1 {
      WholeWord(start, log, Refusal(known));
    }
    if auth {
      EveryRunIsGated(start, log, known, slow);
    } else {
      forall i | |start| <= i < |log| ensures log[i] != Out(Gen(RRL)) {
        NoPasscodeSent(start, log, known, slow, i);
      }
    }
  }

  lemma NothingGuarded(start: Trace, log: Trace, haveInfo: bool, i: nat)
    requires StraysFrom(start, log, Refusal(haveInfo))
    requires |start| <= i < |log| && log[i].Out? && log[i].frame.Gen?
    ensures !Guarded(log[i].frame.tag)
  {
    hide Refusal, Guarded, Unexpected;
    var word := Refusal(haveInfo);
    var n, rest :| 0 <= n <= |word| && Unexpected(rest) && log == start + word[..n] + rest;
    RequestInWord(start, log, word, n, rest, i);
    RefusalIsQuiet(haveInfo);
  }

  lemma WholeWord(start: Trace, log: Trace, word: Trace)
    requires log == start + word
    ensures StraysFrom(start, log, word)
  {
    assert word[..|word|] == word;
    StrayNowhere(start, log, word, |word|);
  }

  /** The slow and the plain handshake share their first two later stages. */
  lemma SameUntilResets(start: Trace, log: Trace, k: nat)
    requires k <= 3
    ensures Reached(start, log, LaterStages(false), k) <==> Reached(start, log, LaterStages(true), k)
  {
    assert LaterStages(false)[..k] == LaterStages(true)[..k];
  }

  // What goes out and what comes in, stage by stage.

  lemma SaidThree(a: Event, b: Event, c: Event)
    ensures Told([a, b, c]) == Told([a]) + Told([b]) + Told([c])
    ensures Heard([a, b, c]) == Heard([a]) + Heard([b]) + Heard([c])
  {
    hide Told, Heard;
    SaidAppend([a], [b]);
    SaidAppend([a, b], [c]);
    assert [a] + [b] == [a, b] && [a, b] + [c] == [a, b, c];
  }

  lemma SaidOne(e: Event)
    ensures Told([e]) == if e.Out? && e.frame.Gen? then [e.frame.tag] else []
    ensures Heard([e]) == if e.In? then [e.frame] else []
  {
    assert [e][..0] == [];
  }

  lemma ExchangeSaid(request: Tag, reply: Tag)
    ensures Told(Exchange(request, reply)) == [request] && Heard(Exchange(request, reply)) == Serving(reply)
    ensures Told(Denial(request)) == [request] && Heard(Denial(request)) == Taking() + Denying()
  {
    hide Told, Heard, Sending, Receiving;
    SendingSaid(request);
    ReceivingSaid(reply);
    ReceivingSaid(ANG);
    TurnedSaid();
    SaidAppend(Sending(request), Receiving(reply));
    var turned := [Out(Sig(Rqst)), In(Sig(Abrt))];
    SaidAppend(Sending(request) + turned, Receiving(ANG));
    SaidAppend(Sending(request), turned);
  }

  lemma TurnedSaid()
    ensures var turned := [Out(Sig(Rqst)), In(Sig(Abrt))]; Told(turned) == [] && Heard(turned) == [Sig(Abrt)]
  {
    hide Told, Heard;
    SaidOne(Out(Sig(Rqst)));
    SaidOne(In(Sig(Abrt)));
    SaidAppend([Out(Sig(Rqst))], [In(Sig(Abrt))]);
    assert [Out(Sig(Rqst))] + [In(Sig(Abrt))] == [Out(Sig(Rqst)), In(Sig(Abrt))];
  }

  lemma SendingSaid(t: Tag)
    ensures Told(Sending(t)) == [t] && Heard(Sending(t)) == Taking()
  {
    hide Told, Heard;
    SaidThree(In(Sig(Rqst)), Out(Gen(t)), In(Sig(Ack)));
    SaidOne(In(Sig(Rqst)));
    SaidOne(Out(Gen(t)));
    SaidOne(In(Sig(Ack)));
  }

  lemma ReceivingSaid(t: Tag)
    ensures Told(Receiving(t)) == [] && Heard(Receiving(t)) == [Gen(t)]
  {
    hide Told, Heard;
    SaidThree(Out(Sig(Rqst)), In(Gen(t)), Out(Sig(Ack)));
    SaidOne(Out(Sig(Rqst)));
    SaidOne(In(Gen(t)));
    SaidOne(Out(Sig(Ack)));
  }

  lemma GreetingSaid()
    ensures Told(Greeting()) == [RAY] && Heard(Greeting()) == [Sig(Ack)] + [Gen(AAY)]
  {
    hide Receiving, Told, Heard;
    SaidThree(Knock(RAY), Out(Gen(RAY)), In(Sig(Ack)));
    SaidOne(Knock(RAY));
    SaidOne(Out(Gen(RAY)));
    SaidOne(In(Sig(Ack)));
    ReceivingSaid(AAY);
    SaidAppend([Knock(RAY), Out(Gen(RAY)), In(Sig(Ack))], Receiving(AAY));
  }

  lemma OpeningSaid(haveInfo: bool, auth: bool)
    ensures var t := Opening(haveInfo) + Passcode(auth);
            && Told(t) == [RAY] + (if haveInfo then [] else [RIG]) + (if auth then [RRL] else [])
            && Heard(t) == OpeningLabels(haveInfo, auth)
  {
    hide Greeting, Exchange, Told, Heard, Serving;
    GreetingSaid();
    ExchangeSaid(RIG, AIG);
    ExchangeSaid(RRL, AEX);
    NothingSaid();
    SaidAppend(Greeting(), if haveInfo then [] else Exchange(RIG, AIG));
    SaidAppend(Opening(haveInfo), Passcode(auth));
  }

  lemma NothingSaid()
    ensures Told([]) == [] && Heard([]) == [] && Concat([]) == []
  {
  }

  lemma StageSaid(s: seq<Trace>, k: nat)
    requires k < |s|
    ensures Told(Concat(s[..k + 1])) == Told(Concat(s[..k])) + Told(s[k])
    ensures Heard(Concat(s[..k + 1])) == Heard(Concat(s[..k])) + Heard(s[k])
  {
    assert s[..k + 1][..k] == s[..k];
    SaidAppend(Concat(s[..k]), s[k]);
  }

  lemma ResetSaid()
    ensures Told(LogReset()) == [RMS, RMS] && Heard(LogReset()) == Taking() + Denying() + Serving(AEX)
  {
    hide Told, Heard, Exchange, Denial;
    SaidAppend(Denial(RMS), Exchange(RMS, AEX));
    ExchangeSaid(RMS, AEX);
  }

  lemma LaterSaid(slow: bool)
    ensures var t := Concat(LaterStages(slow));
            && Told(t) == [RIG, RMG, RTG] + (if slow then [RMS, RMS] else []) + [RTS]
                          + (if slow then [RSS] else []) + [RDI]
            && Heard(t) == QueryLabels() + SettlingLabels(slow)
  {
    hide Concat, Exchange, LogReset, Told, Heard, Serving, Taking, Denying;
    var s := LaterStages(slow);
    StageSaid(s, 0);
    StageSaid(s, 1);
    StageSaid(s, 2);
    StageSaid(s, 3);
    StageSaid(s, 4);
    StageSaid(s, 5);
    StageSaid(s, 6);
    ExchangeSaid(RIG, AIG);
    ExchangeSaid(RMG, AMG);
    ExchangeSaid(RTG, ATG);
    ExchangeSaid(RTS, AEX);
    ExchangeSaid(RSS, AEX);
    ExchangeSaid(RDI, ADI);
    ResetSaid();
    NothingSaid();
    assert s[..7] == s && s[..0] == [];
  }

  /** What goes out in a complete handshake, request by request, and what has to come in. */
  lemma HandshakeSaid(haveInfo: bool, auth: bool, slow: bool)
    ensures Told(Handshake(haveInfo, auth, slow))
            == [RAY] + (if haveInfo then [] else [RIG]) + (if auth then [RRL] else []) + [RIG, RMG, RTG]
               + (if slow then [RMS, RMS] else []) + [RTS] + (if slow then [RSS] else []) + [RDI]
    ensures Heard(Handshake(haveInfo, auth, slow)) == HandshakeLabels(haveInfo, auth, slow)
  {
    hide Concat, LaterStages, Opening, Passcode, Told, Heard, OpeningLabels, QueryLabels, SettlingLabels;
    SaidAppend(Opening(haveInfo) + Passcode(auth), Concat(LaterStages(slow)));
    OpeningSaid(haveInfo, auth);
    LaterSaid(slow);
  }

  lemma {:induction false} ToldWhatIsOut(t: Trace, i: nat)
    requires i < |t| && t[i].Out? && t[i].frame.Gen?
    ensures t[i].frame.tag in Told(t)
  {
    if i < |t| - 1 {
      ToldWhatIsOut(t[..|t| - 1], i);
    }
  }

  /** A run for which the passcode stage is not due sends no passcode. */
  lemma NoPasscodeSent(start: Trace, log: Trace, haveInfo: bool, slow: bool, i: nat)
    requires StraysFrom(start, log, Handshake(haveInfo, false, slow))
    requires |start| <= i < |log|
    ensures log[i] != Out(Gen(RRL))
  {
    hide Handshake, Unexpected, Told;
    var word := Handshake(haveInfo, false, slow);
    var n, rest :| 0 <= n <= |word| && Unexpected(rest) && log == start + word[..n] + rest;
    if log[i] == Out(Gen(RRL)) {
      RequestInWord(start, log, word, n, rest, i);
      ToldWhatIsOut(word, i - |start|);
      HandshakeSaid(haveInfo, false, slow);
    }
  }

  /** How often a request of a type goes out. */
  function Count(t: Trace, tag: Tag): nat {
    multiset(Told(t))[tag]
  }

  lemma CountSplit(haveInfo: bool, auth: bool, slow: bool, tag: Tag)
    ensures Count(Handshake(haveInfo, auth, slow), tag)
            == multiset([RAY])[tag] + (if haveInfo then 0 else multiset([RIG])[tag])
               + (if auth then multiset([RRL])[tag] else 0) + multiset([RIG, RMG, RTG])[tag]
               + (if slow then multiset([RMS, RMS])[tag] else 0) + multiset([RTS])[tag]
               + (if slow then multiset([RSS])[tag] else 0) + multiset([RDI])[tag]
  {
    hide Handshake, Told;
    HandshakeSaid(haveInfo, auth, slow);
  }

  /** A complete handshake performs both slow-sync resets or neither: two RMS and one RSS, or none. */
  lemma ResetsComeTogether(haveInfo: bool, auth: bool, slow: bool)
    ensures var t := Handshake(haveInfo, auth, slow);
            if slow then Count(t, RMS) == 2 && Count(t, RSS) == 1 else Count(t, RMS) == 0 == Count(t, RSS)
  {
    hide Count;
    CountSplit(haveInfo, auth, slow, RMS);
    CountSplit(haveInfo, auth, slow, RSS);
  }
}
