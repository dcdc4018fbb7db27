/** The opening handshake of a synchronization: the environment the library keeps, the protocol
    steps that update it, and zdtm_initiate_sync, which runs them in order. */
module Session {
  import opened Wire
  import opened Memory
  import opened Replies
  import opened ReplyParsers
  import opened Requests
  import opened Frames
  import opened Messages
  import opened Transcripts
  import opened Links

  const SYNC_NOT_SET: Byte := 0x00

  /** A C string set by the caller, in its own block; Null until it is set. */
  datatype CString = CString(chars: Bytes, block: Ptr)

  /** The item format as the environment holds it. */
  datatype ItemFormat = ItemFormat(numParams: U16, params: seq<AdiParam>, block: Ptr)

  const NO_FORMAT := ItemFormat(0, [], Null)

  /** The array and every description are live, all different, and as long as recorded. */
  ghost predicate FormatHeld(f: ItemFormat, live: set<nat>) {
    f.block.Block? ==>
      && f.numParams == |f.params| && LengthsKept(f.params)
      && Held([f.block] + DescBlocks(f.params), live)
  }

  ghost predicate Held(ps: seq<Ptr>, live: set<nat>) {
    && (forall i :: 0 <= i < |ps| ==> ps[i].Block? && ps[i].id in live)
    && (forall i, j :: 0 <= i < j < |ps| ==> ps[i] != ps[j])
  }

  /** The authentication state stored when it is checked: the one already held, or the one in the
      device info that is the second reply of the run. */
  ghost function CheckedState(haveInfo: bool, held: Byte, gained: seq<Reply>): Byte {
    if haveInfo then held
    else if |gained| >= 2 && DecodeAig(gained[1].body).Good? then DecodeAig(gained[1].body).val.authState
    else 0
  }

  /** The authentication state a device is going to show: the one held, or else the one in its fifth frame. */
  function StateToCome(haveInfo: bool, held: Byte, stream: Bytes): Byte {
    if haveInfo then held else StateIn(BodyAt(stream, 4))
  }

  function StateIn(body: Bytes): Byte {
    if DecodeAig(body).Good? then DecodeAig(body).val.authState else 0
  }

  function Labels(fs: seq<Frame>): seq<Label> {
    seq(|fs|, i requires 0 <= i < |fs| => LabelOf(fs[i]))
  }

  function Body(fs: seq<Frame>, i: nat): Bytes {
    if i < |fs| && fs[i].General? then fs[i].content else []
  }

  lemma LabelsInOrder(fs: seq<Frame>)
    ensures |Labels(fs)| == |fs| && forall i :: 0 <= i < |fs| ==> Labels(fs)[i] == LabelOf(fs[i])
  {
  }

  lemma FramesHeard(fs: seq<Frame>, rest: Bytes)
    requires forall f :: f in fs ==> WellFormed(f)
    ensures Has(EncodeAll(fs) + rest, Labels(fs)) && After(EncodeAll(fs) + rest, |fs|) == rest
    ensures forall i {:trigger Body(fs, i)} ::
              0 <= i < |fs| && Labels(fs)[i].Gen? ==> BodyAt(EncodeAll(fs) + rest, i) == Body(fs, i)
  {
    hide Has, After, BodyAt, EncodeAll, WellFormed;
    StreamHas(fs, rest);
  }

  /** The device info queried in the opening is in the fifth frame, the flags six behind the opening. */
  lemma WhereBodiesAre(haveInfo: bool, auth: bool, slow: bool)
    ensures var ls, n := HandshakeLabels(haveInfo, auth, slow), |OpeningLabels(haveInfo, auth)|;
            |ls| > n + 5 && ls[n + 5] == Gen(AMG) && (haveInfo || ls[4] == Gen(AIG))
  {
    hide SettlingLabels;
  }

  /** The frames of the opening, stage by stage. */
  lemma OpeningHeard(b: Bytes, known: bool, last: seq<Label>)
    ensures var n, all := if known then 2 else 5,
                          [Sig(Ack)] + [Gen(AAY)] + (if known then [] else Serving(AIG)) + last;
            && |all| == n + |last| && After(b, |all|) == After(After(b, n), |last|)
            && (Has(b, all) ==>
                  Has(b, [Sig(Ack)] + [Gen(AAY)]) && Has(After(b, n), last) && (known || Has(After(b, 2), Serving(AIG))))
    ensures After(After(b, 2), 3) == After(b, 5) && BodyAt(After(b, 2), 2) == BodyAt(b, 4)
  {
    hide Has, After, BodyAt;
    var hello, query := [Sig(Ack)] + [Gen(AAY)], if known then [] else Serving(AIG);
    HasMore(b, hello, query);
    HasMore(b, hello + query, last);
    AfterMore(b, 2, 3);
    BodyMore(b, 2, 2);
  }

  /** And with the passcode denied. */
  lemma RefusalHeard(b: Bytes, known: bool)
    ensures Has(b, OpeningLabels(known, false) + (Taking() + Denying())) ==>
              && Has(b, [Sig(Ack)] + [Gen(AAY)]) && (known || Has(After(b, 2), Serving(AIG)))
              && Has(After(b, if known then 2 else 5), Taking() + Denying())
  {
    hide Has, After, BodyAt, Serving, Taking, Denying;
    OpeningHeard(b, known, Taking() + Denying());
    assert OpeningLabels(known, false) + (Taking() + Denying())
           == [Sig(Ack)] + [Gen(AAY)] + (if known then [] else Serving(AIG)) + (Taking() + Denying());
  }

  /** The frames of a handshake behind its opening. */
  lemma HandshakeHeard(b: Bytes, known: bool, auth: bool, slow: bool)
    ensures var n := |OpeningLabels(known, auth)|;
            && (Has(b, HandshakeLabels(known, auth, slow)) ==>
                  && Has(b, OpeningLabels(known, auth)) && Has(After(b, n), QueryLabels())
                  && Has(After(After(b, n), 9), SettlingLabels(slow)))
            && After(After(After(b, n), 9), |SettlingLabels(slow)|) == After(b, |HandshakeLabels(known, auth, slow)|)
            && BodyAt(After(b, n), 5) == BodyAt(b, n + 5)
            && BodyAt(After(After(b, n), 9), |SettlingLabels(slow)| - 1)
               == BodyAt(b, |HandshakeLabels(known, auth, slow)| - 1)
  {
    hide Has, After, BodyAt, OpeningLabels, SettlingLabels;
    var first, query, last := OpeningLabels(known, auth), QueryLabels(), SettlingLabels(slow);
    HasMore(b, first, query);
    HasMore(b, first + query, last);
    BodyMore(b, |first|, 5);
    BodyMore(After(b, |first|), 9, |last| - 1);
    BodyMore(b, |first|, 9 + |last| - 1);
  }

  /** The frames that answer the three queries. */
  lemma QueriesHeard(b: Bytes)
    ensures Has(b, QueryLabels()) ==>
              Has(b, Serving(AIG)) && Has(After(b, 3), Serving(AMG)) && Has(After(After(b, 3), 3), Serving(ATG))
    ensures After(After(After(b, 3), 3), 3) == After(b, 9) && BodyAt(After(b, 3), 2) == BodyAt(b, 5)
  {
    hide Has, After, BodyAt, Serving;
    HasMore(b, Serving(AIG), Serving(AMG));
    HasMore(b, Serving(AIG) + Serving(AMG), Serving(ATG));
    BodyMore(b, 3, 2);
  }

  lemma SettlingHeard(b: Bytes, slow: bool)
    ensures var n := if slow then 7 else 0;
            && (Has(b, SettlingLabels(slow)) ==>
                  && (slow ==> Has(b, Taking() + Denying() + Serving(AEX)))
                  && Has(After(b, n), Serving(AEX)) && Has(After(After(b, n), 3), ClosingLabels(slow)))
            && After(After(After(b, n), 3), |ClosingLabels(slow)|) == After(b, |SettlingLabels(slow)|)
            && BodyAt(After(After(b, n), 3), |ClosingLabels(slow)| - 1) == BodyAt(b, |SettlingLabels(slow)| - 1)
    ensures After(b, 0) == b
  {
    NoneHeard(b);
    hide Has, After, BodyAt, ClosingLabels, Serving, Taking, Denying;
    var resets := if slow then Taking() + Denying() + Serving(AEX) else [];
    HasMore(b, resets, Serving(AEX) + ClosingLabels(slow));
    HasMore(After(b, |resets|), Serving(AEX), ClosingLabels(slow));
    BodyMore(After(b, |resets|), 3, |ClosingLabels(slow)| - 1);
    BodyMore(b, |resets|, 3 + |ClosingLabels(slow)| - 1);
  }

  lemma ClosingHeard(b: Bytes, slow: bool)
    ensures var m := if slow then 3 else 0;
            && (Has(b, ClosingLabels(slow)) ==> (slow ==> Has(b, Serving(AEX))) && Has(After(b, m), Serving(ADI)))
            && After(After(b, m), 3) == After(b, |ClosingLabels(slow)|)
            && BodyAt(After(b, m), 2) == BodyAt(b, |ClosingLabels(slow)| - 1)
    ensures After(b, 0) == b
  {
    NoneHeard(b);
    hide Has, After, BodyAt, Serving;
    if slow {
      HasMore(b, Serving(AEX), Serving(ADI));
      BodyMore(b, 3, 2);
    } else {
      assert [] + Serving(ADI) == Serving(ADI) == ClosingLabels(slow);
    }
  }

  lemma NoneHeard(b: Bytes)
    ensures After(b, 0) == b && Has(b, [])
  {
  }

  const AMG_TODO_MASK: Byte := 0x01
  const AMG_CAL_MASK: Byte := 0x02
  const AMG_ADDR_MASK: Byte := 0x04

  /** (flags & mask) == 0, for a mask of one bit. */
  predicate BitClear(flags: Byte, mask: Byte)
    requires mask != 0
  {
    (flags / mask) % 2 == 0
  }

  /** Which slow-sync flag a synchronization type looks at. */
  function Flagged(syncType: Byte, todo: bool, calendar: bool, address: bool): bool {
    if syncType == SYNC_TYPE_TODO then todo
    else if syncType == SYNC_TYPE_CALENDAR then calendar
    else syncType == SYNC_TYPE_ADDRESS && address
  }

  /** The slow-sync test of a type behind a reply with these flags: its flag was set, or its bit is clear. */
  predicate SlowAfter(syncType: Byte, todo: bool, calendar: bool, address: bool, flags: Byte) {
    if syncType == 0x06 then todo || flags % 2 == 0
    else if syncType == 0x01 then calendar || (flags / 2) % 2 == 0
    else syncType == 0x07 && (address || (flags / 4) % 2 == 0)
  }

  /** The flags in the body of an AMG reply. */
  function FlagsIn(body: Bytes): Byte {
    if |body| > 2 then body[2] else 0
  }

  /** The two logs of a sync-log reset. */
  function EmptyLog(): Request {
    Rms(0, seq(RMS_LOG_SIZE, _ => 0))
  }

  function FiveByteLog(): Request {
    Rms(5, [1, 2, 3, 4, 5] + seq(RMS_LOG_SIZE - 5, _ => 0))
  }

  /** What the second goes out as: size 5, the bytes 1 to 5, and 33 zeros. */
  lemma FiveBytesSpelled()
    ensures RequestBytes(EmptyLog()) == [0, 0] + seq(38, _ => 0)
    ensures RequestBytes(FiveByteLog()) == [5, 0, 1, 2, 3, 4, 5] + seq(33, _ => 0)
  {
  }

  /** The requests that go out up to the passcode stage. */
  function OpeningRequests(haveInfo: bool, auth: bool, passcode: Bytes): seq<Request> {
    [Bare] + (if haveInfo then [] else [Bare]) + if auth then [Rrl(|passcode| % 0x100, passcode, Null)] else []
  }

  /** The requests from the last-sync time on: resets, clock, and item format. */
  function SettlingRequests(slow: bool, syncType: Byte, now: Bytes): seq<Request> {
    (if slow then [EmptyLog(), FiveByteLog()] else []) + ([Rts(now)] + ClosingRequests(slow, syncType))
  }

  function ClosingRequests(slow: bool, syncType: Byte): seq<Request> {
    (if slow then [Rss(0x01, syncType, 0x01)] else []) + [Rdi(syncType, 0x07)]
  }

  /** All requests of a complete handshake, in order, with their content. */
  function HandshakeRequests(haveInfo: bool, auth: bool, slow: bool, passcode: Bytes, syncType: Byte,
                             now: Bytes): seq<Request> {
    OpeningRequests(haveInfo, auth, passcode) + [Bare, Rmg(0x01, syncType), Bare] + SettlingRequests(slow, syncType, now)
  }

  lemma OpeningAsked(start: seq<Request>, haveInfo: bool, passcode: Bytes)
    ensures var query := if haveInfo then [] else [Bare];
            && start + [Bare] + query == start + OpeningRequests(haveInfo, false, passcode)
            && start + [Bare] + query + [Rrl(|passcode| % 0x100, passcode, Null)]
               == start + OpeningRequests(haveInfo, true, passcode)
  {
  }

  lemma ClosingAsked(start: seq<Request>, slow: bool, syncType: Byte)
    ensures start + (if slow then [Rss(0x01, syncType, 0x01)] else []) + [Rdi(syncType, 0x07)]
            == start + ClosingRequests(slow, syncType)
  {
  }

  lemma SettlingAsked(start: seq<Request>, slow: bool, syncType: Byte, now: Bytes)
    ensures start + (if slow then [EmptyLog(), FiveByteLog()] else []) + [Rts(now)] + ClosingRequests(slow, syncType)
            == start + SettlingRequests(slow, syncType, now)
  {
    hide ClosingRequests, EmptyLog, FiveByteLog;
  }

  lemma AllAsked(start: seq<Request>, haveInfo: bool, auth: bool, slow: bool, passcode: Bytes, syncType: Byte,
                 now: Bytes)
    ensures start + OpeningRequests(haveInfo, auth, passcode) + [Bare, Rmg(0x01, syncType), Bare]
            + SettlingRequests(slow, syncType, now)
            == start + HandshakeRequests(haveInfo, auth, slow, passcode, syncType, now)
  {
    hide OpeningRequests, SettlingRequests;
  }

  /** What the world decides: whether the two connections come about, all the device will send over
      its own, where the reply with the last sync time is put, whether the time conversions and the
      formatting succeed, and the formatted current time. */
  datatype World = World(dials: bool, accepts: bool, faulty: bool, stream: Bytes, stampAt: Address,
                         lastSyncReadable: bool, clockReadable: bool, printable: bool, now: Bytes)

  predicate Plausible(w: World) {
    StreamOk(w.stream) && (w.clockReadable && w.printable ==> |w.now| == RTS_DATE_LEN)
  }

  /** Where something is in memory. */
  type Address = n: nat | n > 0 witness 1

  /** The test for a timestamp that was never set, as written: year, month, day, hour, minutes and
      seconds are arrays, so it is their six addresses that are compared with 0. */
  predicate StampUnset(at: nat) {
    at == 0 && at + 4 == 0 && at + 6 == 0 && at + 8 == 0 && at + 10 == 0 && at + 12 == 0
  }

  /** The test as meant. */
  predicate StampZero(stamp: Bytes) {
    forall i :: 0 <= i < |stamp| ==> stamp[i] == 0
  }

  /** The test does what is meant for exactly the timestamps that are set. */
  lemma UnsetGoesUnnoticed(at: Address, stamp: Bytes)
    ensures !StampUnset(at)
    ensures (StampUnset(at) <==> StampZero(stamp)) <==> !StampZero(stamp)
  {
  }

  lemma AigSays(body: Bytes, c: Content)
    requires Says(AIG, body, c) && Holdable(AIG, body)
    ensures c.AigReply? && DecodeAig(body).Good? && c.aig.info == DecodeAig(body).val
    ensures |c.aig.info.model| < BUFFER_SIZE
  {
  }

  lemma AmgSays(body: Bytes, c: Content)
    requires Says(AMG, body, c)
    ensures |body| >= 3 && c == AmgContent(body[2])
  {
  }

  /** The body of the last reply. */
  function LastBody(rs: seq<Reply>): Bytes {
    if rs == [] then [] else rs[|rs| - 1].body
  }

  /** None of the blocks a format owns was live before. */
  ghost predicate FormatNew(f: ItemFormat, before: set<nat>) {
    (f.block.Block? ==> f.block.id !in before)
    && forall i :: 0 <= i < |f.params| ==> f.params[i].block.Block? && f.params[i].block.id !in before
  }

  lemma StillNew(f: ItemFormat, before: set<nat>, later: set<nat>)
    requires before <= later
    ensures FormatNew(f, later) ==> FormatNew(f, before)
  {
  }

  lemma AdiSays(body: Bytes, c: Content)
    requires Says(ADI, body, c)
    ensures c.AdiReply? && DecodeAdi(body).Good? && Format(c.adi.params) == DecodeAdi(body).val.rows
    ensures c.adi.numParams == |c.adi.params| && LengthsKept(c.adi.params)
    ensures Holdings(ADI, c) == [c.adi.block] + DescBlocks(c.adi.params)
  {
    hide DecodeAdi, Format, LengthsKept, DescBlocks;
  }

  /** The blocks of a parsed ADI reply are those of a format. */
  lemma FormatArrives(body: Bytes, c: Content, before: set<nat>, live: set<nat>)
    requires Says(ADI, body, c) && Claims(Holdings(ADI, c), before, live)
    ensures c.AdiReply? && DecodeAdi(body).Good? && Format(c.adi.params) == DecodeAdi(body).val.rows
    ensures var f := ItemFormat(c.adi.numParams, c.adi.params, c.adi.block);
            f.block.Block? && FormatHeld(f, live) && FormatNew(f, before)
  {
    hide Says, Holdings, DecodeAdi, Format, LengthsKept;
    AdiSays(body, c);
    var ps := [c.adi.block] + DescBlocks(c.adi.params);
    assert ps[0] == c.adi.block;
    forall i | 0 <= i < |c.adi.params|
      ensures c.adi.params[i].block.Block? && c.adi.params[i].block.id !in before {
      assert ps[i + 1] == c.adi.params[i].block;
    }
  }

  /** The format held is the one the last reply described. */
  ghost predicate FormatSent(f: ItemFormat, replies: seq<Reply>) {
    && replies != [] && var last := replies[|replies| - 1];
    last.tag == ADI && DecodeAdi(last.body).Good? && Format(f.params) == DecodeAdi(last.body).val.rows
  }

  lemma NamesFit(f: ItemFormat, live: set<nat>)
    requires FormatHeld(f, live) && f.block.Block?
    ensures f.numParams == |f.params| && LengthsKept(f.params)
  {
  }

  /** And every description of it fits the buffer it is copied to. */
  lemma FormatFits(body: Bytes, rs: seq<Reply>, f: ItemFormat)
    requires Holdable(ADI, body) && DecodeAdi(body).Good? && Format(f.params) == DecodeAdi(body).val.rows
    ensures FormatSent(f, rs + [Reply(ADI, body)]) && Describable(Format(f.params))
  {
    hide DecodeAdi, Format, Describable;
  }

  /** An IP address that has not been set. */
  const NO_IP: Bytes := [0, 0, 0, 0, 0, 0, 0, 0, 0, 0, 0, 0, 0, 0, 0, 0]

  class Env {
    const link: Link
    var zaurusIp: Bytes
    var syncType: Byte
    var haveInfo: bool
    var model: Bytes
    var language: (Byte, Byte)
    var authState: Byte
    var haveSyncState: bool
    var todoSlow: bool
    var calendarSlow: bool
    var addressSlow: bool
    var format: ItemFormat
    var passcode: CString

    /** The structure before zdtm_initialize: anything but the connections. */
    constructor (link: Link)
      ensures this.link == link
    {
      this.link := link;
      zaurusIp, syncType, haveInfo, model, language, authState := *, *, *, *, *, *;
      haveSyncState, todoSlow, calendarSlow, addressSlow, format, passcode := *, *, *, *, *, *;
    }

    /** The world lets the connections come about and keep, and no allocation fails from here on. */
    ghost predicate Fair(w: World)
      reads link.heap
    {
      w.dials && w.accepts && !w.faulty && NoFailureFrom(link.heap.fails, link.heap.calls)
    }

    function SlowFlag(): bool
      reads this
    {
      Flagged(syncType, todoSlow, calendarSlow, addressSlow)
    }

    /** RIG answered by AIG. */
    method ObtainDeviceInfo() returns (r: int)
      requires link.Synced() && link.heap.Valid()
      modifies this`model, this`language, this`authState, this`haveInfo
      modifies link`log, link`requests, link`replies, link.conn, link.heap
      ensures link.heap.Valid() && old(link.heap.calls) <= link.heap.calls && old(link.heap.live) <= link.heap.live
      ensures old(link.replies) <= link.replies
      ensures r in {0, -1, -2, -3}
      ensures r == 0 ==> link.Synced() && link.log == old(link.log) + Exchange(RIG, AIG) && haveInfo
      ensures r == 0 ==> link.requests == old(link.requests) + [Bare]
      ensures r == 0 ==> |link.replies| == |old(link.replies)| + 1
                         && DecodeAig(link.replies[|old(link.replies)|].body).Good?
                         && var info := DecodeAig(link.replies[|old(link.replies)|].body).val;
                            && model == info.model && language == info.language && authState == info.authState
                            && |model| < BUFFER_SIZE
      ensures r != 0 ==> StraysFrom(old(link.log), link.log, Exchange(RIG, AIG))
                         && unchanged(this)
      ensures old(link.Smooth(Serving(AIG))) ==>
                r == 0 && link.conn.incoming == After(old(link.conn.incoming), 3)
                && |link.replies| > |old(link.replies)|
                && link.replies[|old(link.replies)|].body == BodyAt(old(link.conn.incoming), 2)
    {
      hide Link.Synced, Link.Smooth, Link.Calm, NoFailureFrom, Ready, Asked, Serving, After, BodyAt, NoWriter;
      hide DeviceTag;
      hide Holdable, Claims, Holdings, Says, StraysFrom, Exchange, Shaped, Matches, Erased;
      hide DecodeAig;
      FixedSizeIsReady(RIG, Bare);
      RepliesAreParsed();
      var body, cont;
      r, body, cont := link.Query(RIG, Bare, AIG, false);
      if r != 0 {
        return;
      }
      AigSays(body, cont);
      NoteInfo(cont.aig.info);
    }

    /** The model string and the zero behind it stay inside the environment's buffer. */
    method NoteInfo(info: AigWire)
      requires |info.model| < BUFFER_SIZE
      modifies this`model, this`language, this`authState, this`haveInfo
      ensures model == info.model && language == info.language && authState == info.authState && haveInfo
    {
      model, language, authState := info.model, info.language, info.authState;
      haveInfo := true;
    }
  
    /** RMG answered by AMG. A cleared bit of the flags sets the slow-sync flag of its type; a set
        bit leaves the flag as it was. */
    method ObtainSyncState() returns (r: int)
      requires link.Synced() && link.heap.Valid()
      modifies this`todoSlow, this`calendarSlow, this`addressSlow, this`haveSyncState
      modifies link`log, link`requests, link`replies, link.conn, link.heap
      ensures link.heap.Valid() && old(link.heap.calls) <= link.heap.calls && old(link.heap.live) <= link.heap.live
      ensures old(link.replies) <= link.replies
      ensures r in {0, -1, -2, -3}
      ensures r == 0 ==> link.Synced() && link.log == old(link.log) + Exchange(RMG, AMG) && haveSyncState
      ensures r == 0 ==> link.requests == old(link.requests) + [Rmg(0x01, syncType)]
      ensures r == 0 ==> |link.replies| == |old(link.replies)| + 1
                         && |link.replies[|old(link.replies)|].body| >= 3
                         && var flags := link.replies[|old(link.replies)|].body[2];
                            && (todoSlow <==> old(todoSlow) || flags % 2 == 0)
                            && (calendarSlow <==> old(calendarSlow) || (flags / 2) % 2 == 0)
                            && (addressSlow <==> old(addressSlow) || (flags / 4) % 2 == 0)
      ensures r != 0 ==> StraysFrom(old(link.log), link.log, Exchange(RMG, AMG)) && unchanged(this)
      ensures old(link.Smooth(Serving(AMG))) ==>
                r == 0 && link.conn.incoming == After(old(link.conn.incoming), 3)
                && |link.replies| > |old(link.replies)|
                && link.replies[|old(link.replies)|].body == BodyAt(old(link.conn.incoming), 2)
    {
      hide Link.Synced, Link.Smooth, Link.Calm, NoFailureFrom, Ready, Asked, Serving, After, BodyAt, NoWriter;
      hide DeviceTag;
      hide Holdable, Claims, Holdings, Says, StraysFrom, Exchange, Shaped, Matches, Erased;
      var q := Rmg(0x01, syncType);
      FixedSizeIsReady(RMG, q);
      RepliesAreParsed();
      var body, cont;
      r, body, cont := link.Query(RMG, q, AMG, true);
      if r != 0 {
        return;
      }
      AmgSays(body, cont);
      NoteFlags(cont.fullsyncFlags);
    }

    method NoteFlags(flags: Byte)
      modifies this`todoSlow, this`calendarSlow, this`addressSlow, this`haveSyncState
      ensures todoSlow <==> old(todoSlow) || flags % 2 == 0
      ensures calendarSlow <==> old(calendarSlow) || (flags / 2) % 2 == 0
      ensures addressSlow <==> old(addressSlow) || (flags / 4) % 2 == 0
      ensures haveSyncState
    {
      if BitClear(flags, AMG_TODO_MASK) {
        todoSlow := true;
      }
      if BitClear(flags, AMG_CAL_MASK) {
        calendarSlow := true;
      }
      if BitClear(flags, AMG_ADDR_MASK) {
        addressSlow := true;
      }
      haveSyncState := true;
    }

    /** RSS answered by AEX. The switch afterwards compares wire values with 0 and 1 and falls through. */
    method ResetSyncState() returns (r: int)
      requires link.Synced() && link.heap.Valid()
      modifies this`todoSlow, this`calendarSlow, this`addressSlow
      modifies link`log, link`requests, link`replies, link.conn, link.heap
      ensures link.heap.Valid() && old(link.heap.calls) <= link.heap.calls && old(link.heap.live) <= link.heap.live
      ensures old(link.replies) <= link.replies
      ensures r in {0, -1, -2, -3}
      ensures r == 0 ==> link.Synced() && link.log == old(link.log) + Exchange(RSS, AEX)
      ensures r == 0 ==> link.requests == old(link.requests) + [Rss(0x01, syncType, 0x01)]
      ensures r == 0 ==> addressSlow && (calendarSlow <==> old(calendarSlow) || syncType == 0 || syncType == SYNC_TYPE_CALENDAR)
                         && (todoSlow <==> old(todoSlow) || syncType == 0)
      ensures r != 0 ==> StraysFrom(old(link.log), link.log, Exchange(RSS, AEX)) && unchanged(this)
      ensures old(link.Smooth(Serving(AEX))) ==>
                r == 0 && link.conn.incoming == After(old(link.conn.incoming), 3)
    {
      hide Link.Synced, Link.Smooth, Link.Calm, NoFailureFrom, Ready, Asked, Serving, After, BodyAt, NoWriter;
      hide DeviceTag;
      hide Holdable, Claims, Holdings, Says, StraysFrom, Exchange, Shaped, Matches, Erased;
      var q := Rss(0x01, syncType, 0x01);
      FixedSizeIsReady(RSS, q);
      RepliesAreParsed();
      var body, cont;
      r, body, cont := link.Query(RSS, q, AEX, true);
      if r == 0 {
        NoteReset();
      }
    }

    /** The switch compares wire values with 0 and 1, and falls through. */
    method NoteReset()
      modifies this`todoSlow, this`calendarSlow, this`addressSlow
      ensures addressSlow && (calendarSlow <==> old(calendarSlow) || syncType == 0 || syncType == 1)
      ensures todoSlow <==> old(todoSlow) || syncType == 0
    {
      if syncType == 0 {
        todoSlow := true;
      }
      if syncType == 0 || syncType == 1 {
        calendarSlow := true;
      }
      addressSlow := true;
    }

    /** RTG answered by ATG; `at` is where the reply's timestamp is put, `readable` whether mktime
        accepts the time. */
    method ObtainLastTimeSynced(at: Address, readable: bool) returns (r: int)
      requires link.Synced() && link.heap.Valid()
      modifies link`log, link`requests, link`replies, link.conn, link.heap
      ensures link.heap.Valid() && old(link.heap.calls) <= link.heap.calls && old(link.heap.live) <= link.heap.live
      ensures old(link.replies) <= link.replies
      ensures r in {0, 1, -1, -2, -3, -4}
      ensures r == 1 ==> StampUnset(at)
      ensures r in {0, -4} ==> !StampUnset(at) && (r == 0 <==> readable)
      ensures r in {0, 1, -4} ==> link.Synced() && link.log == old(link.log) + Exchange(RTG, ATG)
      ensures r == 0 ==> link.requests == old(link.requests) + [Bare]
      ensures r != 0 ==> StraysFrom(old(link.log), link.log, Exchange(RTG, ATG))
      ensures readable && !StampUnset(at) && old(link.Smooth(Serving(ATG))) ==>
                r == 0 && link.conn.incoming == After(old(link.conn.incoming), 3)
    {
      hide Link.Synced, Link.Smooth, Link.Calm, NoFailureFrom, Ready, Asked, Serving, After, BodyAt, NoWriter;
      hide DeviceTag;
      hide Holdable, Claims, Holdings, Says, StraysFrom, Exchange, Shaped, Matches, Erased;
      hide StampUnset;
      FixedSizeIsReady(RTG, Bare);
      RepliesAreParsed();
      var body, cont;
      r, body, cont := link.Query(RTG, Bare, ATG, true);
      if r == 0 {
        WholeWord(old(link.log), link.log, Exchange(RTG, ATG));
        if StampUnset(at) {
          r := 1;
        } else if !readable {
          r := -4;
        }
      }
    }

    /** RTS with the formatted time, answered by AEX. */
    method SetLastTimeSynced(readable: bool, printable: bool, now: Bytes) returns (r: int)
      requires link.Synced() && link.heap.Valid() && (readable && printable ==> |now| == RTS_DATE_LEN)
      modifies link`log, link`requests, link`replies, link.conn, link.heap
      ensures link.heap.Valid() && old(link.heap.calls) <= link.heap.calls && old(link.heap.live) <= link.heap.live
      ensures old(link.replies) <= link.replies
      ensures r in {0, -1, -2, -3, -4, -5}
      ensures (r == -1 <==> !readable) && (r == -2 <==> readable && !printable)
      ensures r in {-1, -2} ==> link.log == old(link.log)
      ensures r == 0 ==> link.Synced() && link.log == old(link.log) + Exchange(RTS, AEX)
      ensures r == 0 ==> link.requests == old(link.requests) + [Rts(now)]
      ensures r != 0 ==> StraysFrom(old(link.log), link.log, Exchange(RTS, AEX))
      ensures readable && printable && old(link.Smooth(Serving(AEX))) ==>
                r == 0 && link.conn.incoming == After(old(link.conn.incoming), 3)
    {
      hide Link.Synced, Link.Smooth, Link.Calm, NoFailureFrom, Ready, Asked, Serving, After, BodyAt, NoWriter;
      hide DeviceTag;
      hide Holdable, Claims, Holdings, Says, StraysFrom, Exchange, Shaped, Matches, Erased;
      if !readable {
        StrayNowhere(link.log, link.log, Exchange(RTS, AEX), 0);
        return -1;
      }
      if !printable {
        StrayNowhere(link.log, link.log, Exchange(RTS, AEX), 0);
        return -2;
      }
      FixedSizeIsReady(RTS, Rts(now));
      RepliesAreParsed();
      var body, cont;
      r, body, cont := link.Query(RTS, Rts(now), AEX, true);
      if r != 0 {
        r := r - 2;
      }
    }

    /** RDI answered by ADI, once: a format already held is an error and nothing is sent. The
        description blocks of the reply become the environment's. */
    method ObtainParamFormat() returns (r: int)
      requires link.Synced() && link.heap.Valid()
      modifies this`format
      modifies link`log, link`requests, link`replies, link.conn, link.heap
      ensures link.heap.Valid() && old(link.heap.calls) <= link.heap.calls && old(link.heap.live) <= link.heap.live
      ensures old(link.replies) <= link.replies
      ensures r in {0, -1, -2, -3, -4}
      ensures r == -4 <==> old(format).block.Block?
      ensures r == 0 ==> link.Synced() && link.log == old(link.log) + Exchange(RDI, ADI)
      ensures r == 0 ==> link.requests == old(link.requests) + [Rdi(syncType, 0x07)]
      ensures r == 0 ==> format.block.Block? && FormatHeld(format, link.heap.live)
                         && FormatNew(format, old(link.heap.live))
                         && |link.replies| == |old(link.replies)| + 1 && FormatSent(format, link.replies)
                         && Describable(Format(format.params))
      ensures r != 0 ==> format == old(format) && StraysFrom(old(link.log), link.log, Exchange(RDI, ADI))
                         && link.log != old(link.log) + Exchange(RDI, ADI)
      ensures old(format.block.Null? && link.Smooth(Serving(ADI))) ==>
                && r == 0 && link.conn.incoming == After(old(link.conn.incoming), 3)
                && LastBody(link.replies) == BodyAt(old(link.conn.incoming), 2)
    {
      hide Link.Synced, Link.Smooth, Link.Calm, NoFailureFrom, Ready, Asked, Serving, After, BodyAt, NoWriter;
      hide DeviceTag;
      hide Holdable, Claims, Holdings, Says, StraysFrom, Exchange, Shaped, Matches, Erased;
      hide FormatHeld, FormatNew, FormatSent, Describable, Format, DecodeAdi, AdiHolds, StreamOk, Link.Open, ContSize;
      if format.block.Block? {
        StrayNowhere(link.log, link.log, Exchange(RDI, ADI), 0);
        return -4;
      }
      var q := Rdi(syncType, 0x07);
      FixedSizeIsReady(RDI, q);
      RepliesAreParsed();
      var body, cont;
      r, body, cont := link.Query(RDI, q, ADI, true);
      if r != 0 {
        return;
      }
      FormatArrives(body, cont, old(link.heap.live), link.heap.live);
      FormatFits(body, old(link.replies), ItemFormat(cont.adi.numParams, cont.adi.params, cont.adi.block));
      NoteFormat(cont.adi);
    }

    method NoteFormat(adi: AdiContent)
      modifies this`format
      ensures format == ItemFormat(adi.numParams, adi.params, adi.block)
    {
      format := ItemFormat(adi.numParams, adi.params, adi.block);
    }

    /** The abbreviation and the description of each row, copied in turn to a buffer that holds them and
        a zero behind. */
    method CopyNames() returns (buff: array<Byte>)
      requires format.numParams == |format.params| && LengthsKept(format.params)
      requires Describable(Format(format.params))
      ensures fresh(buff) && buff.Length == BUFFER_SIZE
      ensures format.params != [] ==>
                var last := format.params[|format.params| - 1].desc;
                |last| < BUFFER_SIZE && buff[..|last|] == last && buff[|last|] == 0
    {
      buff := new Byte[BUFFER_SIZE];
      for i := 0 to format.numParams
        invariant i > 0 ==> var d := format.params[i - 1].desc; |d| < BUFFER_SIZE && buff[..|d|] == d && buff[|d|] == 0
      {
        var abrev, desc := AbrevBytes(format.params[i].abrev), format.params[i].desc;
        forall k | 0 <= k < 4 {
          buff[k] := abrev[k];
        }
        buff[4] := 0;
        assert Format(format.params)[i].desc == desc;
        forall k | 0 <= k < format.params[i].descLen {
          buff[k] := desc[k];
        }
        buff[format.params[i].descLen] := 0;
      }
    }
  
    /** Put the passcode in a block of its own and send it as RRL. Only its length modulo 256 goes
        out. Whichever way the send ends, the block has been freed exactly once: by the message's
        own cleanup or, if the send never got that far, here. */
    method SendPasscode(chars: Bytes) returns (r: int, ghost pw: Ptr)
      requires link.Synced() && link.heap.Valid()
      modifies link`log, link`requests, link`replies, link.conn, link.heap
      ensures link.heap.Valid() && old(link.heap.calls) <= link.heap.calls && old(link.heap.live) <= link.heap.live
      ensures r in {0, -1, -2}
      ensures OnlyContent(old(link.heap.live), link.heap.live)
      ensures r == -1 <==> pw.Null?
      ensures r == -1 ==> link.log == old(link.log) && link.heap.live == old(link.heap.live)
      ensures old(link.replies) <= link.replies
      ensures r == 0 ==> link.requests == old(link.requests) + [Rrl(|chars| % 0x100, chars, Null)]
      ensures pw.Block? ==> pw.id !in old(link.heap.live) && pw.id in link.heap.retired
      ensures r == 0 ==>
                link.Synced() && link.log == old(link.log) + Sending(RRL) && link.heap.live == old(link.heap.live)
      ensures r == -2 ==> StraysFrom(old(link.log), link.log, Sending(RRL))
      ensures old(link.Smooth(Taking())) ==>
                r == 0 && link.conn.incoming == After(old(link.conn.incoming), 2)
    {
      hide Link.Synced, StraysFrom, Sending, Taking, Matches, Sendable, RequestTag, Erased;
      hide OnlyContent, Has, After, BodyAt, Ready, NoWriter, DeviceTag, Shaped, NextFrame, RequestOut, Asked;
      hide StreamOk, Link.Open;
      var block := link.heap.Malloc();
      pw := block;
      if block.Null? {
        NoContent(old(link.heap.live));
        assert link.heap.live == old(link.heap.live);
        return -1, pw;
      }
      var msg := PasscodeMessage(chars, block);
      r := link.WrappedSend(msg);
      NoContent(old(link.heap.live));
      assert old(link.heap.live) + Target(block) - Target(block) == old(link.heap.live);
      if r == -1 {
        OnlyWithoutRaw(old(link.heap.live), block, link.heap.live);
      }
      ghost var kept := link.heap.live - Target(msg.PwBlock());
      assert r != -1 ==> kept == link.heap.live && OnlyContent(old(link.heap.live), kept);
      link.heap.Free(msg.PwBlock());
      assert link.heap.live == kept;
      if r != 0 {
        return -2, pw;
      }
      assert link.heap.live == old(link.heap.live);
    }
  
    method PasscodeMessage(chars: Bytes, block: Ptr) returns (msg: Msg)
      requires block.Block?
      ensures fresh(msg) && msg.tag == RRL && msg.raw == Null && msg.PwBlock() == block
      ensures msg.cont == Sent(Rrl(|chars| % 0x100, chars, block))
      ensures Ready(RRL, msg.cont.request) && !NoWriter(msg.cont.request)
      ensures Erased(msg.cont.request) == Rrl(|chars| % 0x100, chars, Null)
    {
      var q := Rrl(|chars| % 0x100, chars, block);
      FixedSizeIsReady(RRL, q);
      msg := new Msg.Request(RRL, q);
    }

    /** RRL answered by AEX (0), or by an abort and then ANG (1). */
    method AuthenticatePasscode(chars: Bytes) returns (r: int, ghost pw: Ptr)
      requires link.Synced() && link.heap.Valid()
      modifies link`log, link`requests, link`replies, link.conn, link.heap
      ensures link.heap.Valid() && old(link.heap.calls) <= link.heap.calls && old(link.heap.live) <= link.heap.live
      ensures old(link.replies) <= link.replies
      ensures r in {0, 1, -1, -2, -3, -4, -5, -6}
      ensures OnlyContent(old(link.heap.live), link.heap.live)
      ensures r == -1 <==> pw.Null?
      ensures pw.Block? ==> pw.id !in old(link.heap.live) && pw.id in link.heap.retired && pw.id !in link.heap.live
      ensures r == 0 ==> link.Synced() && link.log == old(link.log) + Exchange(RRL, AEX)
      ensures r == 0 ==> link.requests == old(link.requests) + [Rrl(|chars| % 0x100, chars, Null)]
      ensures r == 1 ==> link.Synced()
      ensures r == 1 <==> link.log == old(link.log) + Denial(RRL)
      ensures r < 0 ==> StraysFrom(old(link.log), link.log, Exchange(RRL, AEX))
                        || StraysFrom(old(link.log), link.log, Denial(RRL))
      ensures old(link.Smooth(Serving(AEX))) ==>
                r == 0 && link.conn.incoming == After(old(link.conn.incoming), 3)
      ensures old(link.Smooth(Taking() + Denying())) ==> r == 1
    {
      hide OnlyContent, Has, After, BodyAt, Asked, Serving, Taking, NoWriter, DeviceTag, NextFrame;
      hide Link.Synced, Holdable, Claims, Holdings, Says, StraysFrom, Sending, Receiving, Exchange, Denial, CutShort;
      ghost var start := link.log;
      HasMore(link.conn.incoming, Taking(), [Gen(AEX)]);
      HasMore(link.conn.incoming, Taking(), Denying());
      r, pw := SendPasscode(chars);
      if r != 0 {
        NotYetAnswered(start, link.log, r == -1);
        return;
      }
      r := AwaitVerdict(start);
    }

    lemma NotYetAnswered(start: Trace, log: Trace, unsent: bool)
      requires if unsent then log == start else StraysFrom(start, log, Sending(RRL))
      ensures StraysFrom(start, log, Exchange(RRL, AEX)) && log != start + Denial(RRL)
    {
      if unsent {
        StrayNowhere(start, log, Exchange(RRL, AEX), 0);
      } else {
        StrayLength(start, log, Sending(RRL));
        assert start + [] == start && [] + Sending(RRL) + Receiving(AEX) == Exchange(RRL, AEX);
        StrayInside(start, [], log, Sending(RRL), Receiving(AEX));
      }
    }

    /** The reason that follows an abort. */
    method Reason(ghost start: Trace, ghost request: Tag) returns (r: int)
      requires link.Synced() && link.heap.Valid()
      requires link.log == start + Sending(request) + [Out(Sig(Rqst)), In(Sig(Abrt))]
      modifies link`log, link`replies, link.conn, link.heap
      ensures link.heap.Valid() && old(link.heap.calls) <= link.heap.calls
      ensures old(link.heap.retired) <= link.heap.retired
      ensures old(link.heap.live) <= link.heap.live && old(link.replies) <= link.replies
      ensures OnlyContent(old(link.heap.live), link.heap.live)
      ensures r in {0, -2, -3} && (r == 0 ==> link.Synced())
      ensures r == 0 <==> link.log == start + Denial(request)
      ensures r != 0 ==> StraysFrom(start, link.log, Denial(request))
      ensures old(link.Smooth([Gen(ANG)])) ==> r == 0 && link.conn.incoming == After(old(link.conn.incoming), 1)
    {
      hide OnlyContent, Has, After, BodyAt, Asked, Serving, Taking, NoWriter, DeviceTag, NextFrame, Ready, RequestOut;
      hide Erased;
      hide Link.Synced, Holdable, Claims, Holdings, Says, StraysFrom, Sending, Receiving, Exchange, Denial, CutShort;
      hide Link.Smooth, Link.Calm;
      RepliesAreParsed();
      ghost var head := Sending(request) + [Out(Sig(Rqst)), In(Sig(Abrt))];
      assert link.log == start + head;
      DenialParts(request);
      r := link.Hear(ANG, start, head);
    }

    /** The verdict on a passcode that has been sent. */
    method AwaitVerdict(ghost start: Trace) returns (r: int)
      requires link.Synced() && link.heap.Valid() && link.log == start + Sending(RRL)
      modifies link`log, link`replies, link.conn, link.heap
      ensures link.heap.Valid() && old(link.heap.calls) <= link.heap.calls
      ensures old(link.heap.retired) <= link.heap.retired
      ensures old(link.heap.live) <= link.heap.live && old(link.replies) <= link.replies
      ensures OnlyContent(old(link.heap.live), link.heap.live)
      ensures r in {0, 1, -3, -4, -5, -6}
      ensures r == 0 ==> link.Synced() && link.log == start + Exchange(RRL, AEX)
      ensures r == 1 ==> link.Synced()
      ensures r == 1 <==> link.log == start + Denial(RRL)
      ensures r < 0 ==> StraysFrom(start, link.log, Exchange(RRL, AEX)) || StraysFrom(start, link.log, Denial(RRL))
      ensures old(link.Smooth([Gen(AEX)])) ==>
                r == 0 && link.conn.incoming == After(old(link.conn.incoming), 1)
      ensures old(link.Smooth(Denying())) ==> r == 1
    {
      hide OnlyContent, Has, After, BodyAt, Asked, Serving, Taking, NoWriter, DeviceTag, NextFrame, Ready, RequestOut;
      hide Erased;
      hide Link.Synced, Holdable, Claims, Holdings, Says, StraysFrom, Sending, Receiving, Exchange, Denial, CutShort;
      ghost var sent := link.log;
      RepliesAreParsed();
      HasOne(link.conn.incoming, Gen(AEX));
      HasOne(link.conn.incoming, Sig(Abrt));
      HasMore(link.conn.incoming, [Sig(Abrt)], [Gen(ANG)]);
      var rmsg := new Msg();
      r := link.WrappedRecv(rmsg);
      if r == 3 {
        r := Reason(start, RRL);
        r := if r == 0 then 1 else r - 1;
        return;
      }
      var tag := rmsg.tag;
      OnlyWithoutRaw(old(link.heap.live), rmsg.raw, link.heap.live);
      ghost var kept := link.heap.live - Target(rmsg.raw);
      rmsg.Clean(link.heap);
      assert link.heap.live == kept;
      Verdict(start, sent, link.log, r, tag);
      if r != 0 {
        return -5;
      }
      if tag != AEX {
        return -6;
      }
    }

    lemma DenialParts(request: Tag)
      ensures Sending(request) + [Out(Sig(Rqst)), In(Sig(Abrt))] + Receiving(ANG) == Denial(request)
    {
    }

    lemma Verdict(start: Trace, sent: Trace, log: Trace, r: int, tag: Tag)
      requires sent == start + Sending(RRL) && r < 3
      requires if r == 0 then log == sent + Receiving(tag)
               else if r > 0 then log == sent + [Out(Sig(Rqst)), In(Sig(CodeSignal(r)))]
               else CutShort(sent, log)
      ensures log != start + Denial(RRL)
      ensures if r == 0 && tag == AEX then log == start + Exchange(RRL, AEX)
              else StraysFrom(start, log, Exchange(RRL, AEX))
    {
      if r == 0 && tag == AEX {
        assert start + Sending(RRL) + Receiving(AEX) == start + Exchange(RRL, AEX);
      } else {
        AnswerStrays(start, sent, log, Sending(RRL), AEX);
      }
    }
  
    /** An empty log must be denied; then a log of five bytes must be accepted. */
    method ResetSyncLog() returns (r: int)
      requires link.Synced() && link.heap.Valid()
      modifies link`log, link`requests, link`replies, link.conn, link.heap
      ensures link.heap.Valid() && old(link.heap.calls) <= link.heap.calls && old(link.heap.live) <= link.heap.live
      ensures old(link.replies) <= link.replies
      ensures r in {0, -1, -2, -3, -4, -5, -6, -7}
      ensures r == 0 ==> link.Synced() && link.log == old(link.log) + LogReset()
      ensures r == 0 ==> link.requests == old(link.requests) + [EmptyLog(), FiveByteLog()]
      ensures r != 0 ==> StraysFrom(old(link.log), link.log, LogReset())
      ensures old(link.Smooth(Taking() + Denying() + Serving(AEX))) ==>
                r == 0 && link.conn.incoming == After(old(link.conn.incoming), 7)
    {
      hide Link.Synced, Ready, Asked, Serving, Taking, Denying, Has, After, BodyAt, NoWriter, DeviceTag, Shaped;
      hide Matches;
      hide Erased, Holdable, Claims, Holdings, Says, StraysFrom, Exchange, Denial, LogReset, EmptyLog, FiveByteLog;
      ghost var start := link.log;
      LogResetStrays(start);
      HasMore(link.conn.incoming, Taking() + Denying(), Serving(AEX));
      r := EmptyLogDenied();
      if r == 0 {
        FiveBytesAreReady();
        RepliesAreParsed();
        var body, cont;
        r, body, cont := link.Query(RMS, FiveByteLog(), AEX, true);
        r := if r == 0 then 0 else r - 4;
      }
    }

    lemma FiveBytesAreReady()
      ensures Ready(RMS, FiveByteLog()) && !NoWriter(FiveByteLog()) && Erased(FiveByteLog()) == FiveByteLog()
    {
      FixedSizeIsReady(RMS, FiveByteLog());
    }

    method EmptyLogMessage() returns (msg: Msg)
      ensures fresh(msg) && msg.tag == RMS && msg.raw == Null && msg.PwBlock() == Null
      ensures msg.cont == Sent(EmptyLog()) && Ready(RMS, EmptyLog()) && !NoWriter(EmptyLog())
      ensures Erased(EmptyLog()) == EmptyLog()
    {
      FixedSizeIsReady(RMS, EmptyLog());
      msg := new Msg.Request(RMS, EmptyLog());
    }

    /** The first half: RMS with an empty log, an abort, and ANG. */
    method EmptyLogDenied() returns (r: int)
      requires link.Synced() && link.heap.Valid()
      modifies link`log, link`requests, link`replies, link.conn, link.heap
      ensures link.heap.Valid() && old(link.heap.calls) <= link.heap.calls && old(link.heap.live) <= link.heap.live
      ensures old(link.replies) <= link.replies
      ensures OnlyContent(old(link.heap.live), link.heap.live)
      ensures r in {0, -1, -2, -3, -4}
      ensures r == 0 ==> link.Synced() && link.log == old(link.log) + Denial(RMS)
      ensures r == 0 ==> link.requests == old(link.requests) + [EmptyLog()]
      ensures r != 0 ==> StraysFrom(old(link.log), link.log, Denial(RMS))
      ensures old(link.Smooth(Taking() + Denying())) ==>
                r == 0 && link.conn.incoming == After(old(link.conn.incoming), 4)
    {
      hide OnlyContent, Has, After, BodyAt, Asked, Serving, Taking, NoWriter, DeviceTag, NextFrame, Ready, RequestOut;
      hide Erased;
      hide Link.Synced, Holdable, Claims, Holdings, Says, StraysFrom, Sending, Receiving, Exchange, Denial, CutShort;
      hide EmptyLog, Denying;
      ghost var start := link.log;
      HasMore(link.conn.incoming, Taking(), Denying());
      var msg := EmptyLogMessage();
      assert link.heap.live - Target(msg.PwBlock()) == link.heap.live;
      r := link.WrappedSend(msg);
      if r != 0 {
        SendingStrays(start, link.log);
        return -1;
      }
      assert link.heap.live == old(link.heap.live);
      r := LogDenied(start);
    }

    /** The answer to an empty log that has been sent. */
    method LogDenied(ghost start: Trace) returns (r: int)
      requires link.Synced() && link.heap.Valid() && link.log == start + Sending(RMS)
      modifies link`log, link`replies, link.conn, link.heap
      ensures link.heap.Valid() && old(link.heap.calls) <= link.heap.calls && old(link.heap.live) <= link.heap.live
      ensures old(link.replies) <= link.replies
      ensures OnlyContent(old(link.heap.live), link.heap.live)
      ensures r in {0, -2, -3, -4}
      ensures r == 0 ==> link.Synced() && link.log == start + Denial(RMS)
      ensures r != 0 ==> StraysFrom(start, link.log, Denial(RMS))
      ensures old(link.Smooth(Denying())) ==>
                r == 0 && link.conn.incoming == After(old(link.conn.incoming), 2)
    {
      hide OnlyContent, Has, After, BodyAt, Asked, Serving, Taking, NoWriter, DeviceTag, NextFrame, Ready, RequestOut;
      hide Erased;
      hide Link.Synced, Holdable, Claims, Holdings, Says, StraysFrom, Sending, Receiving, Exchange, Denial, CutShort;
      ghost var sent := link.log;
      RepliesAreParsed();
      HasOne(link.conn.incoming, Sig(Abrt));
      HasMore(link.conn.incoming, [Sig(Abrt)], [Gen(ANG)]);
      var rmsg := new Msg();
      r := link.WrappedRecv(rmsg);
      if r != 3 {
        AbortStrays(start, sent, link.log, r, rmsg.tag);
        OnlyWithoutRaw(old(link.heap.live), rmsg.raw, link.heap.live);
        ghost var kept := link.heap.live - Target(rmsg.raw);
        rmsg.Clean(link.heap);
        assert link.heap.live == kept;
        return -2;
      }
      r := Reason(start, RMS);
      r := if r == 0 then 0 else r - 1;
    }

    lemma SendingStrays(start: Trace, log: Trace)
      requires StraysFrom(start, log, Sending(RMS))
      ensures StraysFrom(start, log, Denial(RMS))
    {
      assert start + [] == start;
      StrayInside(start, [], log, Sending(RMS), [Out(Sig(Rqst)), In(Sig(Abrt))] + Receiving(ANG));
      assert [] + Sending(RMS) + ([Out(Sig(Rqst)), In(Sig(Abrt))] + Receiving(ANG)) == Denial(RMS);
    }

    lemma AbortStrays(start: Trace, sent: Trace, log: Trace, r: int, tag: Tag)
      requires sent == start + Sending(RMS) && r < 3
      requires if r == 0 then log == sent + Receiving(tag)
               else if r > 0 then log == sent + [Out(Sig(Rqst)), In(Sig(CodeSignal(r)))]
               else CutShort(sent, log)
      ensures StraysFrom(start, log, Denial(RMS))
    {
      var word := Denial(RMS);
      assert word[..3] == Sending(RMS) && word[..4] == Sending(RMS) + [Out(Sig(Rqst))];
      if log == sent {
        StrayNowhere(start, log, word, 3);
      } else if log == sent + [Out(Sig(Rqst))] {
        StrayNowhere(start, log, word, 4);
      } else {
        Stray(start, log, word, 4, log[|sent| + 1..]);
      }
    }

    /** Straying in either half is straying from the whole reset. */
    lemma LogResetStrays(start: Trace)
      ensures forall log :: StraysFrom(start, log, Denial(RMS)) ==> StraysFrom(start, log, LogReset())
      ensures forall log ::
                StraysFrom(start + Denial(RMS), log, Exchange(RMS, AEX)) ==> StraysFrom(start, log, LogReset())
      ensures start + Denial(RMS) + Exchange(RMS, AEX) == start + LogReset()
    {
      assert start + [] == start && [] + Denial(RMS) + Exchange(RMS, AEX) == LogReset();
      assert Denial(RMS) + Exchange(RMS, AEX) + [] == LogReset();
      forall log | StraysFrom(start, log, Denial(RMS)) ensures StraysFrom(start, log, LogReset()) {
        StrayInside(start, [], log, Denial(RMS), Exchange(RMS, AEX));
      }
      forall log | StraysFrom(start + Denial(RMS), log, Exchange(RMS, AEX)) ensures StraysFrom(start, log, LogReset()) {
        StrayInside(start, Denial(RMS), log, Exchange(RMS, AEX), []);
      }
    }

    /** Does the stored authentication state ask for a passcode? Device info is fetched if missing. */
    method CheckCurAuthState() returns (r: int)
      requires link.heap.Valid() && (!haveInfo ==> link.Synced())
      modifies this`model, this`language, this`authState, this`haveInfo
      modifies link`log, link`requests, link`replies, link.conn, link.heap
      ensures link.heap.Valid() && old(link.heap.calls) <= link.heap.calls && old(link.heap.live) <= link.heap.live
      ensures old(link.replies) <= link.replies
      ensures r in {0, 1, -1}
      ensures var query := if old(haveInfo) then [] else Exchange(RIG, AIG);
              && (r >= 0 ==> link.log == old(link.log) + query && haveInfo)
              && (r >= 0 && !old(haveInfo) ==> link.Synced())
              && (r < 0 ==> !old(haveInfo) && StraysFrom(old(link.log), link.log, query))
      ensures r >= 0 ==> link.requests == old(link.requests) + if old(haveInfo) then [] else [Bare]
      ensures old(haveInfo) ==>
                r >= 0 && unchanged(this) && unchanged(link) && unchanged(link.conn) && unchanged(link.heap)
      ensures r >= 0 && !old(haveInfo) ==>
                && |link.replies| == |old(link.replies)| + 1
                && DecodeAig(link.replies[|old(link.replies)|].body).Good?
                && authState == DecodeAig(link.replies[|old(link.replies)|].body).val.authState
      ensures r >= 0 ==> (r == 1 <==> authState in {0x0b, 0x07})
      ensures !old(haveInfo) && old(link.Smooth(Serving(AIG))) ==>
                r >= 0 && link.conn.incoming == After(old(link.conn.incoming), 3)
                && link.replies[|old(link.replies)|].body == BodyAt(old(link.conn.incoming), 2)
    {
      hide StraysFrom, Exchange, DecodeAig, Link.Synced;
      if !haveInfo {
        r := ObtainDeviceInfo();
        if r != 0 {
          return -1;
        }
      }
      r := if authState == 0x0b || authState == 0x07 then 1 else 0;
    }

    /** The slow-sync flag of the current type; the sync state is fetched if missing. */
    method RequiresSlowSync() returns (r: int)
      requires link.heap.Valid() && (!haveSyncState ==> link.Synced())
      modifies this`todoSlow, this`calendarSlow, this`addressSlow, this`haveSyncState
      modifies link`log, link`requests, link`replies, link.conn, link.heap
      ensures link.heap.Valid() && old(link.heap.calls) <= link.heap.calls && old(link.heap.live) <= link.heap.live
      ensures old(link.replies) <= link.replies
      ensures r in {0, 1, -1, -2}
      ensures old(haveSyncState) ==>
                r != -1 && unchanged(this) && unchanged(link) && unchanged(link.conn) && unchanged(link.heap)
      ensures old(todoSlow) ==> todoSlow
      ensures old(calendarSlow) ==> calendarSlow
      ensures old(addressSlow) ==> addressSlow
      ensures r >= 0 ==> haveSyncState && (r == 1 <==> SlowFlag()) && (!old(haveSyncState) ==> link.Synced())
      ensures r == -2 <==> r != -1 && syncType !in {0x06, 0x01, 0x07}
      ensures r >= 0 && syncType == 0x06 ==> (r == 1 <==> todoSlow)
      ensures r >= 0 && syncType == 0x01 ==> (r == 1 <==> calendarSlow)
      ensures r >= 0 && syncType == 0x07 ==> (r == 1 <==> addressSlow)
      ensures r == -1 ==>
                !old(haveSyncState) && StraysFrom(old(link.log), link.log, Exchange(RMG, AMG)) && unchanged(this)
      ensures !old(haveSyncState) && old(link.Smooth(Serving(AMG))) ==> r != -1
      ensures r != -1 ==> (r == 1 <==> SlowFlag())
    {
      hide StraysFrom, Exchange, DecodeAig, Link.Synced;
      if !haveSyncState {
        r := ObtainSyncState();
        if r != 0 {
          return -1;
        }
      }
      if syncType == SYNC_TYPE_TODO {
        r := if todoSlow then 1 else 0;
      } else if syncType == SYNC_TYPE_CALENDAR {
        r := if calendarSlow then 1 else 0;
      } else if syncType == SYNC_TYPE_ADDRESS {
        r := if addressSlow then 1 else 0;
      } else {
        r := -2;
      }
    }
  
    /** Connect both ways, announce the session with RAY, and take the device's AAY. */
    method Greet(world: World) returns (r: int)
      requires link.heap.Valid() && Plausible(world)
      modifies link, link.heap
      ensures (fresh(link.conn) || link.conn == old(link.conn)) && (fresh(link.req) || link.req == old(link.req))
      ensures r == 0 ==> fresh(link.conn)
                         && link.Begun(|old(link.log)| + 1, |old(link.requests)|, |old(link.replies)|, world.stream)
      ensures link.heap.Valid() && old(link.heap.calls) <= link.heap.calls && old(link.heap.live) <= link.heap.live
      ensures old(link.replies) <= link.replies
      ensures r in {0, -1, -2, -3, -4, -6}
      ensures r == 0 ==> link.Synced() && link.log == old(link.log) + Greeting()
                         && link.requests == old(link.requests) + [Bare]
                         && |link.replies| == |old(link.replies)| + 1
      ensures r != 0 ==> StraysFrom(old(link.log), link.log, Greeting())
      ensures r == 0 ==> link.conn.faulty == world.faulty
      ensures !world.dials || !world.accepts ==> r == -6
      ensures old(Fair(world)) && Has(world.stream, [Sig(Ack)] + [Gen(AAY)]) ==>
                r == 0 && link.conn.incoming == After(world.stream, 2)
    {
      hide Has, After, Asked, NoWriter, DeviceTag, NextFrame, Plausible, Link.Open, Link.Begun, RequestOut, Receiving;
      hide Link.Synced, Holdable, Claims, Holdings, Says, StraysFrom, Greeting, BodyAt, StreamOk;
      ghost var start, word := link.log, Greeting();
      GreetingInSteps(start);
      HasMore(world.stream, [Sig(Ack)], [Gen(AAY)]);
      RepliesAreParsed();
      r := Hail(world, start);
      if r != 0 {
        return;
      }
      r := link.Hear(AAY, start, word[..3]);
      if r != 0 {
        r := r - 1;
      }
    }

    /** _zdtm_connect: a new connection, RAY over it, and the device's own connection in return. */
    method Connect(world: World) returns (r: int)
      requires link.heap.Valid() && Plausible(world)
      modifies link, link.heap
      ensures link.heap.Valid() && old(link.heap.calls) <= link.heap.calls && link.heap.live == old(link.heap.live)
      ensures (fresh(link.conn) || link.conn == old(link.conn)) && (fresh(link.req) || link.req == old(link.req))
      ensures r in {0, -1, -2, -3} && link.requests == old(link.requests) && link.replies == old(link.replies)
      ensures r in {-1, -2} ==> link.log == old(link.log)
      ensures r in {0, -3} ==> link.log == old(link.log) + [Knock(RAY)]
                               && RequestOut([], link.req.outgoing, RAY, Bare)
      ensures r == 0 ==> link.Synced() && fresh(link.conn)
                         && link.Begun(|old(link.log)| + 1, |old(link.requests)|, |old(link.replies)|, world.stream)
      ensures r == 0 ==> link.conn.incoming == world.stream && link.conn.faulty == world.faulty
      ensures !world.dials ==> r == -1
      ensures !world.accepts ==> r != 0
      ensures old(Fair(world)) ==> r == 0
    {
      hide Link.Synced, RequestOut;
      if !world.dials {
        return -1;
      }
      link.Dial(world.faulty);
      r := link.Announce();
      if r != 0 {
        return -2;
      }
      if !world.accepts {
        return -3;
      }
      link.Accept(world.stream, world.faulty);
      r := 0;
    }

    method Hail(world: World, ghost start: Trace) returns (r: int)
      requires link.heap.Valid() && Plausible(world) && start == link.log
      modifies link, link.heap
      ensures (fresh(link.conn) || link.conn == old(link.conn)) && (fresh(link.req) || link.req == old(link.req))
      ensures r == 0 ==> fresh(link.conn)
                         && link.Begun(|old(link.log)| + 1, |old(link.requests)|, |old(link.replies)|, world.stream)
      ensures link.heap.Valid() && old(link.heap.calls) <= link.heap.calls && old(link.heap.live) <= link.heap.live
      ensures old(link.replies) <= link.replies
      ensures r in {0, -1, -2, -6}
      ensures r == 0 ==> link.Synced() && link.log == start + Greeting()[..3]
                         && link.requests == old(link.requests) + [Bare] && link.replies == old(link.replies)
      ensures r != 0 ==> StraysFrom(start, link.log, Greeting())
      ensures r == 0 ==> link.conn.faulty == world.faulty
      ensures !world.dials || !world.accepts ==> r == -6
      ensures old(Fair(world)) && Has(world.stream, [Sig(Ack)]) ==>
                r == 0 && link.conn.incoming == After(world.stream, 1)
    {
      hide Link.Synced, StraysFrom, Greeting, Unexpected, Ready, Link.Open, Link.Begun, Plausible, SignalBytes;
      hide Sendable;
      ghost var word := Greeting();
      GreetingInSteps(start);
      r := Connect(world);
      if r != 0 {
        StrayNowhere(start, link.log, word, if r == -3 then 1 else 0);
        return -6;
      }
      r := SayHello(start);
    }

    /** RAY over the device's own connection, and its acknowledgement. */
    method SayHello(ghost start: Trace) returns (r: int)
      requires link.Synced() && link.heap.Valid() && link.log == start + Greeting()[..1]
      modifies link`log, link`requests, link`replies, link.conn, link.heap
      ensures link.heap.Valid() && old(link.heap.calls) <= link.heap.calls && old(link.heap.live) <= link.heap.live
      ensures old(link.replies) <= link.replies
      ensures r in {0, -1, -2}
      ensures r == 0 ==> link.Synced() && link.log == start + Greeting()[..3]
                         && link.requests == old(link.requests) + [Bare] && link.replies == old(link.replies)
      ensures r != 0 ==> StraysFrom(start, link.log, Greeting())
      ensures old(link.Smooth([Sig(Ack)])) ==> r == 0 && link.conn.incoming == After(old(link.conn.incoming), 1)
    {
      hide Link.Synced, StraysFrom, Greeting, Unexpected, Ready;
      ghost var word := Greeting();
      GreetingInSteps(start);
      FixedSizeIsReady(RAY, Bare);
      var msg := new Msg.Request(RAY, Bare);
      r := link.SendMessage(msg);
      if r != 0 {
        StrayNowhere(start, link.log, word, 1);
        return -1;
      }
      assert link.heap.live == old(link.heap.live);
      ghost var rest;
      r, rest := link.Await(Ack);
      if r != 1 {
        Stray(start, link.log, word, 2, rest);
        return if r == 0 then -1 else -2;
      }
      r := 0;
    }

    lemma GreetingInSteps(start: Trace)
      ensures var w := Greeting();
              && start == start + w[..0] && start + w[..0] + [Knock(RAY)] == start + w[..1]
              && start + [Knock(RAY)] == start + w[..1]
              && start + w[..1] + [Out(Gen(RAY))] == start + w[..2] && start + w[..2] + [In(Sig(Ack))] == start + w[..3]
              && w[..3] + Receiving(AAY) == w
    {
    }

    /** Up to and including the passcode stage, which is due exactly for the states 0x0b and 0x07. */
    method OpenSession(world: World) returns (r: int, ghost auth: bool)
      requires link.heap.Valid() && Plausible(world)
      modifies this`model, this`language, this`authState, this`haveInfo
      modifies link, link.heap
      ensures (fresh(link.conn) || link.conn == old(link.conn)) && (fresh(link.req) || link.req == old(link.req))
      ensures r in {0, 1} ==>
                link.Synced() && fresh(link.conn) && link.conn.faulty == world.faulty
                && link.Begun(|old(link.log)| + 1, |old(link.requests)|, |old(link.replies)|, world.stream)
      ensures link.heap.Valid() && old(link.heap.calls) <= link.heap.calls && old(link.heap.live) <= link.heap.live
      ensures old(link.replies) <= link.replies
      ensures r in {0, 1, -1, -2, -3, -4, -6, -7, -8}
      ensures auth <==> CheckedState(old(haveInfo), old(authState), link.replies[|old(link.replies)|..]) in {0x0b, 0x07}
      ensures r == 0 ==> link.Synced() && link.log == old(link.log) + Opening(old(haveInfo)) + Passcode(auth)
      ensures r == 0 ==> link.requests == old(link.requests) + OpeningRequests(old(haveInfo), auth, passcode.chars)
      ensures r == 0 && !old(haveInfo) ==> |link.replies| >= |old(link.replies)| + 2
      ensures r == 1 <==> link.log == old(link.log) + Refusal(old(haveInfo))
      ensures r == 1 ==> auth
      ensures r < 0 ==> OpeningEndsIn(r, old(link.log), link.log, old(haveInfo), auth, passcode.block.Null?)
      ensures !world.dials || !world.accepts ==> r == -6
      ensures var due := StateToCome(old(haveInfo), old(authState), world.stream) in {0x0b, 0x07};
              old(Fair(world)) && (due ==> passcode.block.Block?)
              && Has(world.stream, OpeningLabels(old(haveInfo), due)) ==>
                r == 0 && auth == due && link.conn.incoming == After(world.stream, |OpeningLabels(old(haveInfo), due)|)
      ensures StateToCome(old(haveInfo), old(authState), world.stream) in {0x0b, 0x07} && old(Fair(world))
              && passcode.block.Block?
              && Has(world.stream, OpeningLabels(old(haveInfo), false) + (Taking() + Denying())) ==>
                r == 1
    {
      hide StraysFrom, Greeting, Exchange, Denial, Passcode, CheckedState, Opening, Refusal, StateToCome, DecodeAig;
      hide OpeningRequests, Link.Synced, Link.Begun, Link.Open, Plausible, Has, After, BodyAt, Serving, OpeningEndsIn;
      hide Taking, Denying, StreamOk, DecodeAig;
      ghost var start, held, known := link.log, authState, haveInfo;
      ghost var due := StateToCome(known, held, world.stream) in {0x0b, 0x07};
      OpeningHeard(world.stream, known, if due then Serving(AEX) else []);
      RefusalHeard(world.stream, known);
      r := Greet(world);
      auth := CheckedState(known, held, link.replies[|old(link.replies)|..]) in {0x0b, 0x07};
      if r != 0 {
        EndsGreeting(start, link.log, known, auth, r, passcode.block.Null?);
        return;
      }
      r := CheckCurAuthState();
      auth := CheckedState(known, held, link.replies[|old(link.replies)|..]) in {0x0b, 0x07};
      OpeningParts(start, known, auth);
      if r < 0 {
        EndsInQuery(start, link.log, auth, passcode.block.Null?);
        return -6, auth;
      }
      ghost var gained := link.replies[|old(link.replies)|..];
      StateChecked(known, held, authState, gained);
      ShownIsToCome(known, held, world.stream, gained);
      OpeningAsked(old(link.requests), known, passcode.chars);
      assert link.log == start + Opening(known);
      ghost var told := link.replies;
      r := GivePasscode(r == 1, start, known);
      StateKept(known, held, |old(link.replies)|, told, link.replies);
    }

    /** The state in the reply is the one that was to come. */
    lemma ShownIsToCome(known: bool, held: Byte, stream: Bytes, gained: seq<Reply>)
      ensures known || (|gained| >= 2 && gained[1].body == BodyAt(stream, 4)) ==>
                CheckedState(known, held, gained) == StateToCome(known, held, stream)
    {
      hide BodyAt, DecodeAig;
    }

    /** The passcode stage, if it is due: without a passcode the session ends here. */
    method GivePasscode(due: bool, ghost start: Trace, ghost known: bool) returns (r: int)
      requires link.Synced() && link.heap.Valid() && link.log == start + Opening(known)
      modifies link`log, link`requests, link`replies, link.conn, link.heap
      ensures link.heap.Valid() && old(link.heap.calls) <= link.heap.calls && old(link.heap.live) <= link.heap.live
      ensures old(link.replies) <= link.replies
      ensures r in {0, 1, -7, -8} && (r != 0 ==> due)
      ensures r in {0, 1} ==> link.Synced()
      ensures r == 0 ==> link.log == start + Opening(known) + Passcode(due)
      ensures r == 0 ==> link.requests
                         == old(link.requests) + if due then [Rrl(|passcode.chars| % 0x100, passcode.chars, Null)] else []
      ensures r == 1 <==> link.log == start + Refusal(known)
      ensures r < 0 ==> OpeningEndsIn(r, start, link.log, known, due, passcode.block.Null?)
      ensures !due ==> r == 0 && unchanged(link) && unchanged(link.conn) && unchanged(link.heap)
      ensures due && passcode.block.Block? && old(link.Smooth(Serving(AEX))) ==>
                r == 0 && link.conn.incoming == After(old(link.conn.incoming), 3)
      ensures due && passcode.block.Block? && old(link.Smooth(Taking() + Denying())) ==> r == 1
    {
      hide StraysFrom, Exchange, Denial, Passcode, Opening, Refusal, OpeningEndsIn, Link.Synced, Link.Smooth;
      hide Has, After, BodyAt, Serving, Taking, Denying;
      if !due {
        EndsUnneeded(start, link.log, known);
        return 0;
      }
      if passcode.block.Null? {
        EndsUnasked(start, link.log, known);
        return -8;
      }
      ghost var pw;
      r, pw := AuthenticatePasscode(passcode.chars);
      EndsAsked(start, link.log, known, r);
      if r != 0 && r != 1 {
        r := -7;
      }
    }

    /** Where a run that got no further than the passcode stage ended, by its result: in the greeting, in
        the query for device info (-6, like a connection that did not come about), in the passcode
        stage, or before it for want of a passcode. */
    ghost predicate OpeningEndsIn(r: int, start: Trace, log: Trace, known: bool, auth: bool, unset: bool) {
      && (r in {-1, -2, -3, -4} ==> StraysFrom(start, log, Greeting()))
      && (r == -6 ==>
            StraysFrom(start, log, Greeting()) || (!known && StraysFrom(start + Greeting(), log, Exchange(RIG, AIG))))
      && (r == -7 ==>
            && auth && !unset
            && (StraysFrom(start + Opening(known), log, Exchange(RRL, AEX))
                || StraysFrom(start + Opening(known), log, Denial(RRL))))
      && (r == -8 ==> auth && unset && log == start + Opening(known))
    }

    /** Wherever it ended, it strayed from a handshake or from a refusal. */
    lemma OpeningStrays(r: int, start: Trace, log: Trace, known: bool, auth: bool, unset: bool)
      requires r in {-1, -2, -3, -4, -6, -7, -8} && OpeningEndsIn(r, start, log, known, auth, unset)
      ensures StraysFrom(start, log, Opening(known) + Passcode(auth)) || (auth && StraysFrom(start, log, Refusal(known)))
    {
      hide StraysFrom, Exchange, Greeting, Opening, Denial;
      OpeningParts(start, known, auth);
      var query, last, done := if known then [] else Exchange(RIG, AIG), Passcode(auth), Opening(known);
      if StraysFrom(start, log, Greeting()) && r >= -6 {
        assert start + [] == start && [] + Greeting() + (query + last) == done + last;
        StrayInside(start, [], log, Greeting(), query + last);
      } else if r >= -6 {
        StrayInside(start, Greeting(), log, Exchange(RIG, AIG), last);
      } else if r == -8 {
        assert (done + last)[..|done|] == done;
        StrayNowhere(start, log, done + last, |done|);
      } else if StraysFrom(start + done, log, Exchange(RRL, AEX)) {
        assert done + last + [] == done + last;
        StrayInside(start, done, log, last, []);
      } else {
        assert done + Denial(RRL) + [] == Refusal(known);
        StrayInside(start, done, log, Denial(RRL), []);
      }
    }

    lemma OpeningParts(start: Trace, known: bool, auth: bool)
      ensures Greeting() + (if known then [] else Exchange(RIG, AIG)) == Opening(known)
      ensures Refusal(known) == Opening(known) + Denial(RRL)
      ensures auth ==> Passcode(auth) == Exchange(RRL, AEX)
      ensures !auth ==> Passcode(auth) == []
    {
    }

    /** Runs that end inside the opening are no refusals. */
    lemma EndsGreeting(start: Trace, log: Trace, known: bool, auth: bool, r: int, unset: bool)
      requires StraysFrom(start, log, Greeting()) && r in {-1, -2, -3, -4, -6}
      ensures OpeningEndsIn(r, start, log, known, auth, unset)
      ensures log != start + Refusal(known)
    {
      hide StraysFrom, Exchange, Greeting, Denial;
      StrayLength(start, log, Greeting());
    }

    lemma EndsInQuery(start: Trace, log: Trace, auth: bool, unset: bool)
      requires StraysFrom(start + Greeting(), log, Exchange(RIG, AIG))
      ensures OpeningEndsIn(-6, start, log, false, auth, unset)
      ensures log != start + Refusal(false)
    {
      hide StraysFrom, Exchange, Greeting, Denial;
      StrayLength(start + Greeting(), log, Exchange(RIG, AIG));
    }

    /** The passcode stage at its end: accepted, denied, or strayed from one of the two. */
    lemma EndsAsked(start: Trace, log: Trace, known: bool, r: int)
      requires r == 0 ==> log == start + Opening(known) + Exchange(RRL, AEX)
      requires r == 1 <==> log == start + Opening(known) + Denial(RRL)
      requires r < 0 ==> StraysFrom(start + Opening(known), log, Exchange(RRL, AEX))
                         || StraysFrom(start + Opening(known), log, Denial(RRL))
      ensures r == 0 ==> log == start + Opening(known) + Passcode(true)
      ensures r == 1 <==> log == start + Refusal(known)
      ensures r < 0 ==> OpeningEndsIn(-7, start, log, known, true, false)
    {
      hide StraysFrom, Exchange, Opening, Denial;
      assert start + Opening(known) + Denial(RRL) == start + Refusal(known);
    }

    /** A run that leaves the passcode stage out. */
    lemma EndsUnneeded(start: Trace, log: Trace, known: bool)
      requires log == start + Opening(known)
      ensures log == start + Opening(known) + Passcode(false) && log != start + Refusal(known)
    {
      assert |Refusal(known)| > |Opening(known)|;
    }

    lemma EndsUnasked(start: Trace, log: Trace, known: bool)
      requires log == start + Opening(known)
      ensures OpeningEndsIn(-8, start, log, known, true, true) && log != start + Refusal(known)
    {
      hide StraysFrom, Opening;
    }

    lemma StateKept(known: bool, held: Byte, n: nat, told: seq<Reply>, later: seq<Reply>)
      requires n <= |told| && told <= later && (!known ==> |told| >= n + 2)
      ensures CheckedState(known, held, later[n..]) == CheckedState(known, held, told[n..])
    {
      if !known {
        assert told[n..][1] == later[n..][1];
      }
    }

    /** Once checked, the stored state is the one the run's replies show, whatever comes later. */
    lemma StateChecked(known: bool, held: Byte, state: Byte, gained: seq<Reply>)
      requires known ==> state == held
      requires !known ==> |gained| >= 2 && DecodeAig(gained[1].body).Good? && state == DecodeAig(gained[1].body).val.authState
      ensures CheckedState(known, held, gained) == state
    {
    }
  
    /** Device info, sync state and last sync time: the later stages that come whatever the flags. */
    method QueryDevice(world: World) returns (r: int)
      requires link.Synced() && link.heap.Valid()
      modifies this`model, this`language, this`authState, this`haveInfo
      modifies this`todoSlow, this`calendarSlow, this`addressSlow, this`haveSyncState
      modifies link`log, link`requests, link`replies, link.conn, link.heap
      ensures link.heap.Valid() && old(link.heap.calls) <= link.heap.calls && old(link.heap.live) <= link.heap.live
      ensures old(link.replies) <= link.replies
      ensures old(todoSlow) ==> todoSlow
      ensures old(calendarSlow) ==> calendarSlow
      ensures old(addressSlow) ==> addressSlow
      ensures r in {0, -9, -10, -12}
      ensures r == 0 ==> link.Synced() && haveSyncState && Reached(old(link.log), link.log, LaterStages(false), 3)
      ensures r == 0 ==> link.requests == old(link.requests) + [Bare, Rmg(0x01, syncType), Bare]
      ensures r != 0 ==> StraysFrom(old(link.log), link.log, Concat(LaterStages(false)))
                         && link.log != old(link.log) + Concat(LaterStages(false))
                         && LaterEndsIn(r, old(link.log), link.log, false)
      ensures world.lastSyncReadable && old(link.Smooth(QueryLabels())) ==>
                && r == 0 && link.conn.incoming == After(old(link.conn.incoming), 9)
                && (SlowFlag() <==> SlowAfter(syncType, old(todoSlow), old(calendarSlow), old(addressSlow),
                                              FlagsIn(BodyAt(old(link.conn.incoming), 5))))
    {
      hide StraysFrom, Exchange, Concat, Reached, DecodeAig, Link.Synced, StampUnset, BrokeIn, LaterEndsIn;
      hide LaterStages, Has, After, BodyAt, Serving, QueryLabels;
      ghost var start, stages := link.log, LaterStages(false);
      QueriesHeard(link.conn.incoming);
      StagesAre(false);
      NothingReached(start, stages);
      r := ObtainDeviceInfo();
      if r < 0 {
        Fails(start, start, stages, 0, link.log);
        EndsLaterIn(-9, start, link.log, false);
        return -9;
      }
      Advance(start, start, stages, 0);
      ghost var done := link.log;
      r := ObtainSyncState();
      if r != 0 {
        Fails(start, done, stages, 1, link.log);
        EndsLaterIn(-10, start, link.log, false);
        return -10;
      }
      Advance(start, done, stages, 1);
      done := link.log;
      UnsetGoesUnnoticed(world.stampAt, []);
      r := ObtainLastTimeSynced(world.stampAt, world.lastSyncReadable);
      if r != 0 {
        Fails(start, done, stages, 2, link.log);
        EndsLaterIn(-12, start, link.log, false);
        return if r == 1 then -11 else -12;
      }
      Advance(start, done, stages, 2);
    }

    /** Where a run that got behind the passcode stage ended, by its result. */
    ghost predicate LaterEndsIn(r: int, entered: Trace, log: Trace, slow: bool) {
      var stages := LaterStages(slow);
      && (r == -9 ==> BrokeIn(entered, log, stages, 0, Exchange(RIG, AIG)))
      && (r == -10 ==> BrokeIn(entered, log, stages, 1, Exchange(RMG, AMG)))
      && (r == -12 ==> BrokeIn(entered, log, stages, 2, Exchange(RTG, ATG)))
      && (r == -13 ==> slow && BrokeIn(entered, log, stages, 3, LogReset()))
      && (r == -14 ==> BrokeIn(entered, log, stages, 4, Exchange(RTS, AEX)))
      && (r == -15 ==> slow && BrokeIn(entered, log, stages, 5, Exchange(RSS, AEX)))
      && (r == -16 ==> BrokeIn(entered, log, stages, 6, Exchange(RDI, ADI)))
    }

    lemma EndsLaterIn(r: int, entered: Trace, log: Trace, slow: bool)
      requires r in {-9, -10, -12, -13, -14, -15, -16}
      requires var k := if r == -9 then 0 else if r == -10 then 1 else -10 - r;
               BrokeIn(entered, log, LaterStages(slow), k, LaterStages(slow)[k])
      requires r in {-13, -15} ==> slow
      ensures LaterEndsIn(r, entered, log, slow)
    {
      hide LaterStages, Exchange, LogReset;
      StagesAre(slow);
    }

    lemma StagesAre(slow: bool)
      ensures var s := LaterStages(slow);
              && s[0] == Exchange(RIG, AIG) && s[1] == Exchange(RMG, AMG) && s[2] == Exchange(RTG, ATG)
              && s[3] == (if slow then LogReset() else []) && s[4] == Exchange(RTS, AEX)
              && s[5] == (if slow then Exchange(RSS, AEX) else []) && s[6] == Exchange(RDI, ADI)
    {
    }

    lemma NothingReached(start: Trace, stages: seq<Trace>)
      ensures Reached(start, start, stages, 0)
    {
      assert stages[..0] == [] && start + [] == start;
    }

    /** The sync-time update between the two optional resets, and the item format. */
    method Settle(world: World, ghost start: Trace) returns (r: int, ghost slow: bool)
      requires link.Synced() && link.heap.Valid() && haveSyncState
      requires Plausible(world)
      requires Reached(start, link.log, LaterStages(SlowFlag()), 3)
      modifies this`todoSlow, this`calendarSlow, this`addressSlow, this`haveSyncState, this`format
      modifies link`log, link`requests, link`replies, link.conn, link.heap
      ensures link.heap.Valid() && old(link.heap.calls) <= link.heap.calls && old(link.heap.live) <= link.heap.live
      ensures old(link.replies) <= link.replies
      ensures old(todoSlow) ==> todoSlow
      ensures old(calendarSlow) ==> calendarSlow
      ensures old(addressSlow) ==> addressSlow
      ensures r in {0, -13, -14, -15, -16}
      ensures slow == old(SlowFlag()) && (r == 0 ==> slow == SlowFlag())
      ensures r == 0 ==> link.Synced() && Reached(start, link.log, LaterStages(slow), 7)
      ensures r == 0 ==> link.requests == old(link.requests) + SettlingRequests(slow, syncType, world.now)
      ensures r == 0 ==> old(format).block.Null? && format.block.Block? && FormatHeld(format, link.heap.live)
                         && FormatNew(format, old(link.heap.live)) && FormatSent(format, link.replies)
      ensures r != 0 ==> StraysFrom(start, link.log, Concat(LaterStages(slow))) && format == old(format)
                         && link.log != start + Concat(LaterStages(slow)) && LaterEndsIn(r, start, link.log, slow)
      ensures world.clockReadable && world.printable
              && old(format.block.Null? && link.Smooth(SettlingLabels(SlowFlag()))) ==>
                && r == 0 && link.conn.incoming == After(old(link.conn.incoming), |SettlingLabels(slow)|)
                && LastBody(link.replies) == BodyAt(old(link.conn.incoming), |SettlingLabels(slow)| - 1)
    {
      hide StraysFrom, Exchange, Concat, Reached, LogReset, FormatHeld, FormatNew, FormatSent, EmptyLog, FiveByteLog;
      hide Link.Synced, ClosingRequests, SettlingRequests, LaterStages, Flagged, LaterEndsIn, Has, After, BodyAt;
      hide LastBody;
      hide Serving, Taking, Denying, ClosingLabels, SettlingLabels, Plausible;
      slow := SlowFlag();
      SettlingHeard(link.conn.incoming, slow);
      SettlingAsked(link.requests, slow, syncType, world.now);
      r := SettleFirst(world, start, slow);
      if r == 0 {
        ghost var live := link.heap.live;
        r := SettleRest(start, slow);
        StillNew(format, old(link.heap.live), live);
      }
    }

    /** Up to the clock. */
    method SettleFirst(world: World, ghost start: Trace, ghost slow: bool) returns (r: int)
      requires link.Synced() && link.heap.Valid() && haveSyncState && slow == SlowFlag()
      requires Plausible(world)
      requires Reached(start, link.log, LaterStages(slow), 3)
      modifies this`todoSlow, this`calendarSlow, this`addressSlow, this`haveSyncState
      modifies link`log, link`requests, link`replies, link.conn, link.heap
      ensures link.heap.Valid() && old(link.heap.calls) <= link.heap.calls && old(link.heap.live) <= link.heap.live
      ensures old(link.replies) <= link.replies
      ensures unchanged(this) && r in {0, -13, -14}
      ensures r == 0 ==> link.Synced() && Reached(start, link.log, LaterStages(slow), 5)
      ensures r == 0 ==> link.requests
                         == old(link.requests) + (if slow then [EmptyLog(), FiveByteLog()] else []) + [Rts(world.now)]
      ensures r != 0 ==> StraysFrom(start, link.log, Concat(LaterStages(slow)))
                         && link.log != start + Concat(LaterStages(slow)) && LaterEndsIn(r, start, link.log, slow)
      ensures world.clockReadable && world.printable && old(link.Smooth(SettlingLabels(slow))) ==>
                && r == 0 && link.conn.incoming == After(After(old(link.conn.incoming), if slow then 7 else 0), 3)
                && Has(link.conn.incoming, ClosingLabels(slow))
    {
      hide StraysFrom, Exchange, Concat, Reached, LogReset, EmptyLog, FiveByteLog, Link.Synced, SettlingLabels;
      hide LaterStages, Flagged, Link.Open, Link.Begun, BrokeIn, LaterEndsIn, Has, After, Serving, Taking, Denying;
      StagesAre(slow);
      SettlingHeard(link.conn.incoming, slow);
      ghost var stages, done := LaterStages(slow), link.log;
      r := ResetLogIfDue();
      if r != 0 {
        Fails(start, done, stages, 3, link.log);
        EndsLaterIn(-13, start, link.log, slow);
        return -13;
      }
      Advance(start, done, stages, 3);
      done := link.log;
      r := SetLastTimeSynced(world.clockReadable, world.printable, world.now);
      if r != 0 {
        Fails(start, done, stages, 4, link.log);
        EndsLaterIn(-14, start, link.log, slow);
        return -14;
      }
      Advance(start, done, stages, 4);
    }

    /** The first of the two resets, if the slow-sync test asks for it. */
    method ResetLogIfDue() returns (r: int)
      requires link.Synced() && link.heap.Valid() && haveSyncState
      modifies this`todoSlow, this`calendarSlow, this`addressSlow, this`haveSyncState
      modifies link`log, link`requests, link`replies, link.conn, link.heap
      ensures link.heap.Valid() && old(link.heap.calls) <= link.heap.calls && old(link.heap.live) <= link.heap.live
      ensures old(link.replies) <= link.replies
      ensures unchanged(this) && (r != 0 ==> SlowFlag())
      ensures r == 0 ==> link.Synced() && link.log == old(link.log) + if SlowFlag() then LogReset() else []
      ensures r == 0 ==> link.requests == old(link.requests) + if SlowFlag() then [EmptyLog(), FiveByteLog()] else []
      ensures r != 0 ==> StraysFrom(old(link.log), link.log, LogReset())
      ensures old(SlowFlag() ==> link.Smooth(Taking() + Denying() + Serving(AEX))) ==>
                r == 0 && link.conn.incoming == After(old(link.conn.incoming), if SlowFlag() then 7 else 0)
    {
      hide Link.Smooth, Taking, Denying, Serving;
      assert After(link.conn.incoming, 0) == link.conn.incoming;
      hide After, StraysFrom, LogReset, EmptyLog, FiveByteLog, Link.Synced, Flagged;
      r := RequiresSlowSync();
      if r == 1 {
        r := ResetSyncLog();
      } else {
        assert link.log == link.log + [] && link.requests == link.requests + [];
        r := 0;
      }
    }

    method SettleRest(ghost start: Trace, ghost slow: bool) returns (r: int)
      requires link.Synced() && link.heap.Valid() && haveSyncState && slow == SlowFlag()
      requires Reached(start, link.log, LaterStages(slow), 5)
      modifies this`todoSlow, this`calendarSlow, this`addressSlow, this`haveSyncState, this`format
      modifies link`log, link`requests, link`replies, link.conn, link.heap
      ensures link.heap.Valid() && old(link.heap.calls) <= link.heap.calls && old(link.heap.live) <= link.heap.live
      ensures old(link.replies) <= link.replies
      ensures old(todoSlow) ==> todoSlow
      ensures old(calendarSlow) ==> calendarSlow
      ensures old(addressSlow) ==> addressSlow
      ensures r in {0, -15, -16}
      ensures r == 0 ==> link.Synced() && Reached(start, link.log, LaterStages(slow), 7) && slow == SlowFlag()
      ensures r == 0 ==> link.requests == old(link.requests) + ClosingRequests(slow, syncType)
      ensures r == 0 ==> old(format).block.Null? && format.block.Block? && FormatHeld(format, link.heap.live)
                         && FormatNew(format, old(link.heap.live)) && FormatSent(format, link.replies)
      ensures r != 0 ==> StraysFrom(start, link.log, Concat(LaterStages(slow))) && format == old(format)
                         && link.log != start + Concat(LaterStages(slow)) && LaterEndsIn(r, start, link.log, slow)
      ensures old(format.block.Null? && link.Smooth(ClosingLabels(slow))) ==>
                && r == 0 && link.conn.incoming == After(old(link.conn.incoming), |ClosingLabels(slow)|)
                && LastBody(link.replies) == BodyAt(old(link.conn.incoming), |ClosingLabels(slow)| - 1)
    {
      hide StraysFrom, Exchange, Concat, Reached, LogReset, FormatHeld, FormatNew, FormatSent, ClosingRequests;
      hide LaterStages;
      hide Link.Synced, BrokeIn, LaterEndsIn, Has, After, BodyAt, LastBody, Serving, ClosingLabels, Describable, Format;
      StagesAre(slow);
      ClosingHeard(link.conn.incoming, slow);
      ClosingAsked(link.requests, slow, syncType);
      ghost var stages, done := LaterStages(slow), link.log;
      r := RequiresSlowSync();
      if r == 1 {
        r := ResetSyncState();
        if r != 0 {
          Fails(start, done, stages, 5, link.log);
          EndsLaterIn(-15, start, link.log, slow);
          return -15;
        }
      }
      assert done + [] == done && link.log == done + stages[5];
      Advance(start, done, stages, 5);
      done := link.log;
      ghost var live := link.heap.live;
      r := ObtainParamFormat();
      StillNew(format, old(link.heap.live), live);
      if r != 0 {
        Fails(start, done, stages, 6, link.log);
        EndsLaterIn(-16, start, link.log, slow);
        return -16;
      }
      Advance(start, done, stages, 6);
      NamesFit(format, link.heap.live);
      var _ := CopyNames();
    }
  
    /** Everything behind the passcode stage. */
    method Proceed(world: World, ghost start: Trace) returns (r: int, ghost slow: bool)
      requires link.Synced() && link.heap.Valid() && Plausible(world) && start == link.log
      modifies this`model, this`language, this`authState, this`haveInfo
      modifies this`todoSlow, this`calendarSlow, this`addressSlow, this`haveSyncState, this`format
      modifies link`log, link`requests, link`replies, link.conn, link.heap
      ensures link.heap.Valid() && old(link.heap.calls) <= link.heap.calls && old(link.heap.live) <= link.heap.live
      ensures old(link.replies) <= link.replies
      ensures old(todoSlow) ==> todoSlow
      ensures old(calendarSlow) ==> calendarSlow
      ensures old(addressSlow) ==> addressSlow
      ensures r in {0, -9, -10, -12, -13, -14, -15, -16}
      ensures r == 0 ==> link.Synced() && slow == SlowFlag() && Reached(start, link.log, LaterStages(slow), 7)
      ensures r == 0 ==> link.requests == old(link.requests) + [Bare, Rmg(0x01, syncType), Bare]
                                          + SettlingRequests(slow, syncType, world.now)
      ensures r == 0 ==> old(format).block.Null? && format.block.Block? && FormatHeld(format, link.heap.live)
                         && FormatNew(format, old(link.heap.live)) && FormatSent(format, link.replies)
      ensures r != 0 ==> StraysFrom(start, link.log, Concat(LaterStages(slow))) && format == old(format)
                         && link.log != start + Concat(LaterStages(slow)) && LaterEndsIn(r, start, link.log, slow)
      ensures var b := old(link.conn.incoming);
              var due := SlowAfter(syncType, old(todoSlow), old(calendarSlow), old(addressSlow), FlagsIn(BodyAt(b, 5)));
              world.lastSyncReadable && world.clockReadable && world.printable && old(format.block.Null? && link.Calm())
              && Has(b, QueryLabels()) && Has(After(b, 9), SettlingLabels(due)) ==>
                && r == 0 && slow == due && link.conn.incoming == After(After(b, 9), |SettlingLabels(due)|)
                && LastBody(link.replies) == BodyAt(After(b, 9), |SettlingLabels(due)| - 1)
    {
      hide StraysFrom, Concat, Reached, LaterStages, FormatHeld, FormatNew, FormatSent, LaterEndsIn, Link.Synced;
      hide SettlingRequests, QueryLabels, SettlingLabels, Has, After, BodyAt, SlowAfter, FlagsIn, Flagged, Plausible;
      slow := false;
      r := QueryDevice(world);
      if r == 0 {
        SameUntilResets(start, link.log, 3);
        ghost var live := link.heap.live;
        r, slow := Settle(world, start);
        StillNew(format, old(link.heap.live), live);
      }
    }

    /** The frames of the handshake a device is in for: with the passcode stage if the state to come is 0x0b
        or 0x07, and with the resets if the flags to come ask for them. */
    ghost function Expected(w: World): (ls: seq<Label>)
      reads this
      ensures |ls| > 0
    {
      var due := StateToCome(haveInfo, authState, w.stream) in {0x0b, 0x07};
      var flags := FlagsIn(BodyAt(w.stream, |OpeningLabels(haveInfo, due)| + 5));
      HandshakeLabels(haveInfo, due, SlowAfter(syncType, todoSlow, calendarSlow, addressSlow, flags))
    }

    /** A device that sends these frames sends those that are expected. */
    lemma FramesExpected(w: World, fs: seq<Frame>, rest: Bytes, due: bool, slow: bool)
      requires w.stream == EncodeAll(fs) + rest && forall f :: f in fs ==> WellFormed(f)
      requires Labels(fs) == HandshakeLabels(haveInfo, due, slow)
      requires due <==> (if haveInfo then authState else StateIn(Body(fs, 4))) in {0x0b, 0x07}
      requires slow <==> SlowAfter(syncType, todoSlow, calendarSlow, addressSlow,
                                   FlagsIn(Body(fs, |OpeningLabels(haveInfo, due)| + 5)))
      ensures Has(w.stream, Expected(w)) && After(w.stream, |Expected(w)|) == rest
    {
      hide Has, After, BodyAt, EncodeAll, WellFormed, DecodeAig, SettlingLabels, SlowAfter, Labels, OpeningLabels;
      var n := |OpeningLabels(haveInfo, due)|;
      WhereBodiesAre(haveInfo, due, slow);
      assert |Labels(fs)| == |fs| by { LabelsInOrder(fs); }
      FramesHeard(fs, rest);
      assert Labels(fs)[n + 5] == Gen(AMG);
      if !haveInfo {
        assert Labels(fs)[4] == Gen(AIG);
      }
    }

    /** A world in which nothing fails, and whose device sends those frames. */
    ghost predicate Promising(w: World)
      reads this, link.heap
    {
      && syncType != 0 && zaurusIp != NO_IP && Fair(w) && w.lastSyncReadable && w.clockReadable && w.printable
      && format.block.Null?
      && var due := StateToCome(haveInfo, authState, w.stream) in {0x0b, 0x07};
         (due ==> passcode.block.Block?) && Has(w.stream, Expected(w))
    }

    /** The same, but the device denies the passcode. */
    ghost predicate Denied(w: World)
      reads this, link.heap
    {
      && syncType != 0 && zaurusIp != NO_IP && Fair(w) && passcode.block.Block?
      && StateToCome(haveInfo, authState, w.stream) in {0x0b, 0x07}
      && Has(w.stream, OpeningLabels(haveInfo, false) + (Taking() + Denying()))
    }

    /** The frames of such a device, stage by stage. */
    lemma PromiseHeard(w: World)
      ensures var due := StateToCome(haveInfo, authState, w.stream) in {0x0b, 0x07};
              var n := |OpeningLabels(haveInfo, due)|;
              var b := After(w.stream, n);
              var slow := SlowAfter(syncType, todoSlow, calendarSlow, addressSlow, FlagsIn(BodyAt(b, 5)));
              && (Promising(w) ==>
                    && syncType != 0 && zaurusIp != NO_IP && Fair(w)
                    && w.lastSyncReadable && w.clockReadable && w.printable
                    && format.block.Null? && (due ==> passcode.block.Block?)
                    && Has(w.stream, OpeningLabels(haveInfo, due)) && Has(b, QueryLabels())
                    && Has(After(b, 9), SettlingLabels(slow)))
              && After(After(b, 9), |SettlingLabels(slow)|) == After(w.stream, |Expected(w)|)
              && BodyAt(After(b, 9), |SettlingLabels(slow)| - 1) == BodyAt(w.stream, |Expected(w)| - 1)
              && Expected(w) == HandshakeLabels(haveInfo, due, slow)
      ensures Denied(w) ==>
                && syncType != 0 && zaurusIp != NO_IP && Fair(w) && passcode.block.Block?
                && StateToCome(haveInfo, authState, w.stream) in {0x0b, 0x07}
                && Has(w.stream, OpeningLabels(haveInfo, false) + (Taking() + Denying()))
    {
      hide Has, After, BodyAt, OpeningLabels, SettlingLabels, HandshakeLabels, QueryLabels, StateToCome, FlagsIn;
      var due := StateToCome(haveInfo, authState, w.stream) in {0x0b, 0x07};
      var flags := FlagsIn(BodyAt(w.stream, |OpeningLabels(haveInfo, due)| + 5));
      HandshakeHeard(w.stream, haveInfo, due, SlowAfter(syncType, todoSlow, calendarSlow, addressSlow, flags));
    }

    lemma FairIsCalm(w: World, calls: nat)
      requires calls <= link.heap.calls && link.conn.faulty == w.faulty
      ensures !w.faulty && NoFailureFrom(link.heap.fails, calls) ==> link.Calm()
    {
    }

    lemma FairAt(w: World)
      ensures Fair(w) ==> !w.faulty && NoFailureFrom(link.heap.fails, link.heap.calls)
    {
    }

    /** zdtm_initiate_sync. The run's transcript is a complete handshake on success, the refused one
        exactly when the result is 1, and otherwise keeps to one of the two until at most one
        unexpected frame ends it, in the stage the result tells. `auth` and `slow` name the handshake:
        whether the authentication state, when checked, asked for a passcode, and whether a slow sync
        was due. */
    method InitiateSync(world: World) returns (r: int, ghost auth: bool, ghost slow: bool)
      requires link.heap.Valid()
      requires Plausible(world)
      modifies this`model, this`language, this`authState, this`haveInfo
      modifies this`todoSlow, this`calendarSlow, this`addressSlow, this`haveSyncState, this`format
      modifies link, link.heap
      ensures (fresh(link.conn) || link.conn == old(link.conn)) && (fresh(link.req) || link.req == old(link.req))
      ensures r in {0, 1} ==>
                link.Synced() && fresh(link.conn) && link.conn.faulty == world.faulty
                && link.Begun(|old(link.log)| + 1, |old(link.requests)|, |old(link.replies)|, world.stream)
      ensures link.heap.Valid() && old(link.heap.calls) <= link.heap.calls && old(link.heap.live) <= link.heap.live
      ensures old(link.replies) <= link.replies
      ensures old(todoSlow) ==> todoSlow
      ensures old(calendarSlow) ==> calendarSlow
      ensures old(addressSlow) ==> addressSlow
      ensures -16 <= r <= 1 && r != -11
      ensures syncType == 0 ==> r == -7 && unchanged(link) && unchanged(link.heap)
      ensures r == -5 <==> syncType != 0 && zaurusIp == NO_IP
      ensures r == -5 ==> unchanged(link) && unchanged(link.heap)
      ensures syncType != 0 && zaurusIp != NO_IP && (!world.dials || !world.accepts) ==> r == -6
      ensures auth <==> CheckedState(old(haveInfo), old(authState), link.replies[|old(link.replies)|..]) in {0x0b, 0x07}
      ensures auth ==> Gated(old(link.log), link.log, old(haveInfo))
      ensures !auth ==> Passless(old(link.log), link.log)
      ensures r == 0 ==> link.Synced() && slow == SlowFlag()
      ensures r == 0 <==> link.log == old(link.log) + Handshake(old(haveInfo), auth, slow)
      ensures r == 0 ==> link.requests == old(link.requests)
                         + HandshakeRequests(old(haveInfo), auth, slow, passcode.chars, syncType, world.now)
      ensures r == 0 ==> old(format).block.Null? && format.block.Block? && FormatHeld(format, link.heap.live)
                         && FormatNew(format, old(link.heap.live)) && FormatSent(format, link.replies)
      ensures r != 0 ==> format == old(format)
      ensures r == 1 <==> link.log == old(link.log) + Refusal(old(haveInfo))
      ensures r < 0 ==> StraysFrom(old(link.log), link.log, Handshake(old(haveInfo), auth, slow))
                        || (auth && StraysFrom(old(link.log), link.log, Refusal(old(haveInfo))))
      ensures r < 0 && syncType != 0 && zaurusIp != NO_IP ==>
                && OpeningEndsIn(r, old(link.log), link.log, old(haveInfo), auth, passcode.block.Null?)
                && LaterEndsIn(r, old(link.log) + Opening(old(haveInfo)) + Passcode(auth), link.log, slow)
      ensures old(Promising(world)) ==>
                && r == 0 && link.conn.incoming == After(world.stream, |old(Expected(world))|)
                && LastBody(link.replies) == BodyAt(world.stream, |old(Expected(world))| - 1)
      ensures old(Promising(world)) ==> old(Expected(world)) == HandshakeLabels(old(haveInfo), auth, slow)
      ensures old(Denied(world)) ==> r == 1
    {
      hide *;
      slow := false;
      ghost var start, known, held := link.log, haveInfo, authState;
      auth := CheckedState(known, held, []) in {0x0b, 0x07};
      PromiseHeard(world);
      FairAt(world);
      if syncType == 0x00 || zaurusIp == NO_IP {
        NothingSent(start, known, auth);
        assert link.replies[|old(link.replies)|..] == [];
        r := if syncType == 0x00 then -7 else -5;
      } else {
        r, auth := OpenSession(world);
        if r != 0 {
          StraysEarly(start, link.log, known, auth, r, passcode.block.Null?);
        } else {
          ghost var told, entered, live := link.replies, link.log, link.heap.live;
          FairIsCalm(world, old(link.heap.calls));
          r, slow := Proceed(world, entered);
          StillNew(format, old(link.heap.live), live);
          StateKept(known, held, |old(link.replies)|, told, link.replies);
          AllAsked(old(link.requests), known, auth, slow, passcode.chars, syncType, world.now);
          EndsLater(start, entered, link.log, known, auth, slow, r);
        }
      }
    }

    lemma NothingSent(start: Trace, known: bool, auth: bool)
      ensures StraysFrom(start, start, Handshake(known, auth, false))
      ensures start != start + Refusal(known) && start != start + Handshake(known, auth, false)
      ensures Gated(start, start, known) && Passless(start, start)
    {
      LaterIsLong(false);
      StrayNowhere(start, start, Handshake(known, auth, false), 0);
      assert |Refusal(known)| > 0;
    }

    /** No run that ends in the opening is complete. */
    lemma StraysEarly(start: Trace, log: Trace, known: bool, auth: bool, r: int, unset: bool)
      requires r in {1, -1, -2, -3, -4, -6, -7, -8}
      requires r == 1 ==> auth && log == start + Refusal(known)
      requires r != 1 ==> OpeningEndsIn(r, start, log, known, auth, unset)
      ensures r != 1 ==>
                StraysFrom(start, log, Handshake(known, auth, false)) || (auth && StraysFrom(start, log, Refusal(known)))
      ensures log != start + Handshake(known, auth, false)
      ensures if auth then Gated(start, log, known) else Passless(start, log)
      ensures LaterEndsIn(r, start + Opening(known) + Passcode(auth), log, false)
    {
      hide Opening, Concat, LaterStages, StraysFrom, OpeningEndsIn, Gated, Passless;
      var word := Opening(known) + Passcode(auth);
      LaterIsLong(false);
      assert start + [] == start && [] + word + Concat(LaterStages(false)) == Handshake(known, auth, false);
      if r == 1 {
        assert |Refusal(known)| == |Opening(known)| + 8;
      } else {
        OpeningStrays(r, start, log, known, auth, unset);
        if StraysFrom(start, log, word) {
          StrayInside(start, [], log, word, Concat(LaterStages(false)));
          StrayLength(start, log, word);
        } else {
          StrayLength(start, log, Refusal(known));
        }
      }
      RunEnded(start, log, known, auth, false, r);
    }

    lemma LaterIsLong(slow: bool)
      ensures |Concat(LaterStages(slow))| >= 12
    {
      var s := LaterStages(slow);
      ConcatSplit(s, 1);
      assert s[..1][..0] == [] && Concat(s[..1]) == Concat([]) + s[0];
    }

    lemma EndsLater(start: Trace, entered: Trace, log: Trace, known: bool, auth: bool, slow: bool, r: int)
      requires entered == start + Opening(known) + Passcode(auth) && r in {0, -9, -10, -12, -13, -14, -15, -16}
      requires if r == 0 then Reached(entered, log, LaterStages(slow), 7)
               else StraysFrom(entered, log, Concat(LaterStages(slow))) && log != entered + Concat(LaterStages(slow))
      ensures r == 0 <==> log == start + Handshake(known, auth, slow)
      ensures r != 0 ==> StraysFrom(start, log, Handshake(known, auth, slow))
      ensures log != start + Refusal(known)
      ensures if auth then Gated(start, log, known) else Passless(start, log)
      ensures forall unset :: OpeningEndsIn(r, start, log, known, auth, unset)
    {
      hide Opening, Passcode, Refusal, LaterStages, Gated, Passless;
      var word, stages := Opening(known) + Passcode(auth), LaterStages(slow);
      assert stages[..7] == stages && start + word == entered;
      assert word + Concat(stages) + [] == Handshake(known, auth, slow);
      assert entered + Concat(stages) == start + Handshake(known, auth, slow);
      if r != 0 {
        StrayInside(start, word, log, Concat(stages), []);
      }
      NoRefusal(start, entered, log, known, auth, slow, r == 0);
      RunEnded(start, log, known, auth, slow, r);
    }

    lemma NoRefusal(start: Trace, entered: Trace, log: Trace, known: bool, auth: bool, slow: bool, done: bool)
      requires entered == start + Opening(known) + Passcode(auth)
      requires if done then log == entered + Concat(LaterStages(slow))
               else StraysFrom(entered, log, Concat(LaterStages(slow)))
      ensures log != start + Refusal(known)
    {
      hide Opening, Concat, Unexpected;
      var k, refused := |start| + |Opening(known)|, start + Refusal(known);
      assert refused[k + 1] == Out(Gen(RRL)) && refused[k + 4] == In(Sig(Abrt)) && |refused| == k + 8;
      var word := Concat(LaterStages(slow));
      if auth {
        assert entered[k + 4] == In(Gen(AEX));
      } else {
        QueryComesFirst(slow);
        if !done {
          var n, rest :| 0 <= n <= |word| && Unexpected(rest) && log == entered + word[..n] + rest;
          assert |rest| <= 2 by { UnexpectedIsShort(rest); }
          assert n >= 2 ==> log[k + 1] == word[..n][1];
        }
      }
    }

    lemma UnexpectedIsShort(rest: Trace)
      requires Unexpected(rest)
      ensures |rest| <= 2
    {
    }

    lemma QueryComesFirst(slow: bool)
      ensures var word := Concat(LaterStages(slow)); |word| >= 6 && word[1] == Out(Gen(RIG))
    {
      var s := LaterStages(slow);
      ConcatSplit(s, 0);
      var later :| Concat(s) == Concat(s[..0]) + s[0] + later;
      assert s[..0] == [];
    }
  }
}
