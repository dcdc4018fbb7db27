/** The request/message/acknowledge exchange as a protocol between two endpoints: each runs the
    wrapped send for the transfers it sends and the wrapped receive for the ones it receives, over
    two FIFO channels and in any interleaving. */
module Lockstep {
  import opened Wire
  import opened Frames
  import Transcripts

  datatype Message = Message(tag: Tag, content: Bytes)

  datatype Token = Sig(signal: Signal) | Msg(message: Message)

  datatype Side = Desktop | Device

  /** One transfer of the conversation. Both sides run through the same list. */
  datatype Transfer = Transfer(sender: Side, message: Message)

  type Script = seq<Transfer>

  /** Where one side stands: the transfer, the step inside it, the result of a call that failed
      (0 if none did), and the messages received so far. */
  datatype End = End(at: nat, step: nat, failed: int, received: seq<Message>)

  datatype State = State(desktop: End, device: End, toDesktop: seq<Token>, toDevice: seq<Token>)

  /** What one side does next: its new standing, whether it took a token, and what it sends. */
  datatype Move = Blocked | Move(next: End, took: bool, sent: seq<Token>)

  function MoveOf(ts: Script, side: Side, e: End, input: seq<Token>): Move {
    if e.failed != 0 || e.at >= |ts| then Blocked
    else if ts[e.at].sender == side then SenderMove(ts[e.at], e, input)
    else ReceiverMove(e, input)
  }

  /** _zdtm_wrapped_send_message: await a request, send, await the acknowledgement. */
  function SenderMove(t: Transfer, e: End, input: seq<Token>): Move {
    if e.step == 1 then Move(e.(step := 2), false, [Msg(t.message)])
    else if input == [] then Blocked
    else if e.step == 0 then
      Move(if input[0] == Sig(Rqst) then e.(step := 1) else e.(failed := -1), true, [])
    else
      Move(if input[0] == Sig(Ack) then e.(at := e.at + 1, step := 0) else e.(failed := -3), true, [])
  }

  /** _zdtm_wrapped_recv_message: request, await the message, acknowledge. */
  function ReceiverMove(e: End, input: seq<Token>): Move {
    if e.step == 0 then Move(e.(step := 1), false, [Sig(Rqst)])
    else if e.step == 1 then
      if input == [] then Blocked
      else
        match input[0]
        case Msg(m) => Move(e.(step := 2, received := e.received + [m]), true, [])
        case Sig(Ack) => Move(e.(failed := 1), true, [])
        case Sig(Rqst) => Move(e.(failed := 2), true, [])
        case Sig(Abrt) => Move(e.(failed := 3), true, [])
    else Move(e.(at := e.at + 1, step := 0), false, [Sig(Ack)])
  }

  // The moves of one side, written as a transcript, are those of the wrapped calls.

  function Label(t: Token): Transcripts.Label {
    match t
    case Sig(s) => Transcripts.Sig(s)
    case Msg(m) => Transcripts.Gen(m.tag)
  }

  function Entry(m: Move, input: seq<Token>): Transcripts.Trace
    requires m.Move? && (m.took ==> input != [])
  {
    (if m.took then [Transcripts.In(Label(input[0]))] else [])
    + if |m.sent| == 1 then [Transcripts.Out(Label(m.sent[0]))] else []
  }

  /** A side that gets what it waits for goes through the transcript of a wrapped send. */
  lemma SendIsThreeMoves(ts: Script, side: Side, e: End)
    requires e.at < |ts| && ts[e.at].sender == side && e.step == 0 && e.failed == 0
    ensures var m1 := MoveOf(ts, side, e, [Sig(Rqst)]);
            m1.Move? &&
            var m2 := MoveOf(ts, side, m1.next, []);
            m2.Move? &&
            var m3 := MoveOf(ts, side, m2.next, [Sig(Ack)]);
            && m3.Move? && m3.next == e.(at := e.at + 1)
            && Entry(m1, [Sig(Rqst)]) + Entry(m2, []) + Entry(m3, [Sig(Ack)])
               == Transcripts.Sending(ts[e.at].message.tag)
  {
  }

  /** And of a wrapped receive. */
  lemma ReceiveIsThreeMoves(ts: Script, side: Side, e: End, msg: Message)
    requires e.at < |ts| && ts[e.at].sender != side && e.step == 0 && e.failed == 0
    ensures var m1 := MoveOf(ts, side, e, []);
            m1.Move? &&
            var m2 := MoveOf(ts, side, m1.next, [Msg(msg)]);
            m2.Move? &&
            var m3 := MoveOf(ts, side, m2.next, []);
            && m3.Move? && m3.next == e.(at := e.at + 1, received := e.received + [msg])
            && Entry(m1, []) + Entry(m2, [Msg(msg)]) + Entry(m3, []) == Transcripts.Receiving(msg.tag)
  {
  }

  /** One side moves; the other may be anywhere. */
  ghost predicate Step(ts: Script, s: State, t: State) {
    StepOf(ts, s, t, Desktop) || StepOf(ts, s, t, Device)
  }

  ghost predicate StepOf(ts: Script, s: State, t: State, side: Side) {
    match side
    case Desktop =>
      var m := MoveOf(ts, Desktop, s.desktop, s.toDesktop);
      m.Move? && t == State(m.next, s.device, if m.took then s.toDesktop[1..] else s.toDesktop, s.toDevice + m.sent)
    case Device =>
      var m := MoveOf(ts, Device, s.device, s.toDevice);
      m.Move? && t == State(s.desktop, m.next, s.toDesktop + m.sent, if m.took then s.toDevice[1..] else s.toDevice)
  }

  const START := State(End(0, 0, 0, []), End(0, 0, 0, []), [], [])

  /** Any interleaving from the start. */
  ghost predicate Run(ts: Script, run: seq<State>) {
    && |run| > 0 && run[0] == START
    && forall k :: 0 <= k < |run| - 1 ==> Step(ts, run[k], run[k + 1])
  }

  /** The messages addressed to a side among the first n transfers, in order. */
  function Addressed(ts: Script, side: Side, n: nat): seq<Message>
    requires n <= |ts|
  {
    if n == 0 then []
    else Addressed(ts, side, n - 1) + if ts[n - 1].sender == side then [] else [ts[n - 1].message]
  }

  // The invariant: the two sides never part by more than an acknowledgement and a request.

  /** The sender and the receiver of transfer i, the channel from one to the other, and back. */
  ghost predicate Paired(ts: Script, i: nat, snd: End, rcv: End, over: seq<Token>, back: seq<Token>)
    requires i < |ts|
  {
    && snd.at == i
    && (|| (rcv.at == i && snd.step == 0 && rcv.step == 0 && over == [] && back == [])
        || (rcv.at == i && snd.step == 0 && rcv.step == 1 && over == [] && back == [Sig(Rqst)])
        || (rcv.at == i && snd.step == 1 && rcv.step == 1 && over == [] && back == [])
        || (rcv.at == i && snd.step == 2 && rcv.step == 1 && over == [Msg(ts[i].message)] && back == [])
        || (rcv.at == i && snd.step == 2 && rcv.step == 2 && over == [] && back == [])
        || (rcv.at == i + 1 && snd.step == 2 && rcv.step == 0 && over == [] && back == [Sig(Ack)])
        || (rcv.at == i + 1 < |ts| && ts[i + 1].sender == ts[i].sender
            && snd.step == 2 && rcv.step == 1 && over == [] && back == [Sig(Ack), Sig(Rqst)]))
  }

  /** A side has received what was addressed to it, counting a message it has yet to acknowledge. */
  ghost predicate UpToDate(ts: Script, side: Side, e: End) {
    && e.failed == 0 && e.at <= |ts|
    && (e.at == |ts| ==> e.step == 0)
    && var n := if e.at < |ts| && ts[e.at].sender != side && e.step == 2 then e.at + 1 else e.at;
       e.received == Addressed(ts, side, n)
  }

  ghost predicate Inv(ts: Script, s: State) {
    && UpToDate(ts, Desktop, s.desktop) && UpToDate(ts, Device, s.device)
    && var i := if s.desktop.at < s.device.at then s.desktop.at else s.device.at;
       if i == |ts| then s.desktop.at == s.device.at == i && s.toDesktop == [] && s.toDevice == []
       else if ts[i].sender == Desktop then Paired(ts, i, s.desktop, s.device, s.toDevice, s.toDesktop)
       else Paired(ts, i, s.device, s.desktop, s.toDesktop, s.toDevice)
  }

  lemma DesktopKeepsInv(ts: Script, s: State, t: State)
    requires Inv(ts, s) && StepOf(ts, s, t, Desktop)
    ensures Inv(ts, t)
  {
  }

  lemma DeviceKeepsInv(ts: Script, s: State, t: State)
    requires Inv(ts, s) && StepOf(ts, s, t, Device)
    ensures Inv(ts, t)
  {
  }

  lemma StepKeepsInv(ts: Script, s: State, t: State)
    requires Inv(ts, s) && Step(ts, s, t)
    ensures Inv(ts, t)
  {
    hide Inv, StepOf;
    if StepOf(ts, s, t, Desktop) {
      DesktopKeepsInv(ts, s, t);
    } else {
      DeviceKeepsInv(ts, s, t);
    }
  }

  /** Steps already made: three by each side for every transfer it is through with. */
  function Work(s: State): nat {
    3 * s.desktop.at + s.desktop.step + 3 * s.device.at + s.device.step
  }

  lemma {:induction false} RunKeepsInv(ts: Script, run: seq<State>, k: nat)
    requires Run(ts, run) && k < |run|
    ensures Inv(ts, run[k]) && Work(run[k]) == k
  {
    hide Inv, Step;
    if k == 0 {
      StartIsFine(ts);
    } else {
      RunKeepsInv(ts, run, k - 1);
      assert Step(ts, run[k - 1], run[k - 1 + 1]);
      StepKeepsInv(ts, run[k - 1], run[k]);
      StepIsWork(ts, run[k - 1], run[k]);
    }
  }

  lemma StartIsFine(ts: Script)
    ensures Inv(ts, START) && Work(START) == 0
  {
  }

  lemma StepIsWork(ts: Script, s: State, t: State)
    requires Inv(ts, s) && Inv(ts, t) && Step(ts, s, t)
    ensures Work(t) == Work(s) + 1
  {
  }

  function Messages(ts: seq<Token>): nat {
    if ts == [] then 0 else Messages(ts[1..]) + if ts[0].Msg? then 1 else 0
  }

  /** How many transfers a side has the message of: those it is through with, and the one it has
      received but not yet acknowledged. */
  function Through(ts: Script, side: Side, e: End): nat {
    if e.at < |ts| && ts[e.at].sender != side && e.step == 2 then e.at + 1 else e.at
  }

  /** In every reachable state at most one message and at most two frames are under way, and two
      only as an acknowledgement with a request right behind it; no call has failed; and each side
      holds exactly the messages addressed to it in the transfers it is through with, in order. */
  lemma ReachableState(ts: Script, run: seq<State>, k: nat)
    requires Run(ts, run) && k < |run|
    ensures var s := run[k];
            && s.desktop.failed == 0 == s.device.failed
            && Messages(s.toDesktop) + Messages(s.toDevice) <= 1
            && |s.toDesktop| + |s.toDevice| <= 2
            && (|s.toDesktop| + |s.toDevice| == 2 ==>
                  s.toDesktop + s.toDevice == [Sig(Ack), Sig(Rqst)] && (s.toDesktop == [] || s.toDevice == []))
            && s.desktop.at <= s.device.at + 1 && s.device.at <= s.desktop.at + 1
            && s.desktop.at <= |ts| && s.desktop.received == Addressed(ts, Desktop, Through(ts, Desktop, s.desktop))
            && s.device.at <= |ts| && s.device.received == Addressed(ts, Device, Through(ts, Device, s.device))
  {
    RunKeepsInv(ts, run, k);
    FewInFlight(ts, run[k]);
    var s := run[k];
    assert s.toDesktop + [] == s.toDesktop && [] + s.toDevice == s.toDevice;
  }

  lemma FewInFlight(ts: Script, s: State)
    requires Inv(ts, s)
    ensures Messages(s.toDesktop) + Messages(s.toDevice) <= 1
  {
    assert [Sig(Ack), Sig(Rqst)][1..] == [Sig(Rqst)];
  }

  /** Both sides are through the whole conversation. */
  predicate Finished(ts: Script, s: State) {
    s.desktop.at == s.device.at == |ts|
  }

  /** No deadlock: in every reachable state that is not the end, some side can move. */
  lemma NoDeadlock(ts: Script, run: seq<State>)
    requires Run(ts, run) && !Finished(ts, run[|run| - 1])
    ensures exists t :: Run(ts, run + [t])
  {
    var s := run[|run| - 1];
    RunKeepsInv(ts, run, |run| - 1);
    var t := SomeMove(ts, s);
    var longer := run + [t];
    forall k | 0 <= k < |longer| - 1 ensures Step(ts, longer[k], longer[k + 1]) {
      if k < |run| - 1 {
        assert Step(ts, run[k], run[k + 1]);
      }
    }
    assert Run(ts, longer);
  }

  lemma SomeMove(ts: Script, s: State) returns (t: State)
    requires Inv(ts, s) && !Finished(ts, s)
    ensures Step(ts, s, t)
  {
    var m := MoveOf(ts, Desktop, s.desktop, s.toDesktop);
    if m.Move? {
      t := State(m.next, s.device, if m.took then s.toDesktop[1..] else s.toDesktop, s.toDevice + m.sent);
      assert StepOf(ts, s, t, Desktop);
    } else {
      var d := MoveOf(ts, Device, s.device, s.toDevice);
      t := State(s.desktop, d.next, s.toDesktop + d.sent, if d.took then s.toDevice[1..] else s.toDevice);
      assert StepOf(ts, s, t, Device);
    }
  }

  /** Every run ends after exactly six steps a transfer, with every message delivered exactly once
      and in order and nothing left in the channels. */
  lemma EverythingArrives(ts: Script, run: seq<State>)
    requires Run(ts, run)
    ensures |run| <= 6 * |ts| + 1
    ensures Finished(ts, run[|run| - 1]) <==> |run| == 6 * |ts| + 1
    ensures var s := run[|run| - 1];
            Finished(ts, s) ==> && s.desktop.received == Addressed(ts, Desktop, |ts|)
                                && s.device.received == Addressed(ts, Device, |ts|)
                                && s.toDesktop == [] == s.toDevice
  {
    RunKeepsInv(ts, run, |run| - 1);
    WorkIsBounded(ts, run[|run| - 1]);
  }

  lemma WorkIsBounded(ts: Script, s: State)
    requires Inv(ts, s)
    ensures Work(s) <= 6 * |ts| && (Work(s) == 6 * |ts| <==> Finished(ts, s))
  {
  }
}
