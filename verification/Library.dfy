/** The calls of the library's interface around the opening handshake: setting up and tearing down
    the environment, fetching the lists of sync ids and single items, and what any sequence of
    calls keeps. */
module Library {
  import opened Wire
  import opened Memory
  import opened Replies
  import opened ReplyParsers
  import opened Requests
  import opened Messages
  import opened Frames
  import opened Transcripts
  import opened Links
  import opened Session
  import opened ItemFields
  import opened Items
  import Layouts
  import Net

  // What calls promise one another.

  /** The environment's own blocks: the format's, and the passcode's beside them. */
  ghost predicate Owns(f: ItemFormat, passcode: CString, live: set<nat>) {
    && FormatHeld(f, live)
    && (passcode.block.Block? ==> passcode.block.id in live)
    && (passcode.block.Block? && f.block.Block? ==> passcode.block !in [f.block] + DescBlocks(f.params))
  }

  /** The part of the environment the promises are about, and the live blocks. */
  datatype View = View(format: ItemFormat, passcode: CString, todoSlow: bool, calendarSlow: bool, addressSlow: bool,
                       live: set<nat>)
  {
    /** A format that is held is an array of as many rows as recorded, each with a description of the
        recorded length, all in live blocks of their own; and the passcode is in another. */
    ghost predicate Sound() {
      Owns(format, passcode, live)
    }
  }

  function ViewOf(env: Env): View
    reads env, env.link.heap
  {
    View(env.format, env.passcode, env.todoSlow, env.calendarSlow, env.addressSlow, env.link.heap.live)
  }

  datatype Call =
    | Initialize | Configure | Initiate | CheckState | FetchLists | FetchOne | Exchanges | Finalize
    | Withheld

  /** What a call with this result may do to the environment. Only zdtm_initialize forgets, and only
      zdtm_finalize takes blocks away. */
  ghost predicate Permits(c: Call, r: int, v: View, w: View) {
    c != Initialize ==>
      && (v.todoSlow ==> w.todoSlow) && (v.calendarSlow ==> w.calendarSlow) && (v.addressSlow ==> w.addressSlow)
      && (w.format == v.format || (c == Initiate && r == 0))
      && (c == Initiate && r == 0 ==> v.format.block.Null? && w.format.block.Block?)
      && (c != Finalize ==> v.live <= w.live && (v.Sound() ==> w.Sound()))
      && (c == Withheld ==> w == v)
  }

  lemma OwnsStill(f: ItemFormat, passcode: CString, before: set<nat>, after: set<nat>)
    requires Owns(f, passcode, before) && before <= after
    ensures Owns(f, passcode, after)
  {
  }

  lemma OwnsNewFormat(f: ItemFormat, passcode: CString, before: set<nat>, after: set<nat>)
    requires passcode.block.Block? ==> passcode.block.id in before
    requires before <= after && FormatHeld(f, after) && FormatNew(f, before)
    ensures Owns(f, passcode, after)
  {
  }

  /** A call that touches neither format nor passcode, resets no flag and frees nothing of before. */
  lemma PermitsMore(c: Call, r: int, v: View, w: View)
    requires c != Withheld && (c == Initiate ==> r != 0)
    requires (v.todoSlow ==> w.todoSlow) && (v.calendarSlow ==> w.calendarSlow) && (v.addressSlow ==> w.addressSlow)
    requires w.format == v.format && w.passcode == v.passcode && v.live <= w.live
    ensures Permits(c, r, v, w)
  {
    hide Owns;
    if v.Sound() {
      OwnsStill(v.format, v.passcode, v.live, w.live);
    }
  }

  /** Whatever more blocks come, what is owned stays owned. */
  lemma OwnsLater(v: View)
    ensures forall after: set<nat> {:trigger Owns(v.format, v.passcode, after)} ::
              v.live <= after && v.Sound() ==> Owns(v.format, v.passcode, after)
  {
    hide Owns;
    forall after: set<nat> | v.live <= after && v.Sound() ensures Owns(v.format, v.passcode, after) {
      OwnsStill(v.format, v.passcode, v.live, after);
    }
  }

  lemma PermitsFormat(v: View, w: View)
    requires (v.todoSlow ==> w.todoSlow) && (v.calendarSlow ==> w.calendarSlow) && (v.addressSlow ==> w.addressSlow)
    requires w.passcode == v.passcode && v.live <= w.live && v.format.block.Null? && w.format.block.Block?
    requires FormatHeld(w.format, w.live) && FormatNew(w.format, v.live)
    ensures Permits(Initiate, 0, v, w)
  {
    hide FormatHeld, FormatNew, DescBlocks;
    if v.Sound() {
      OwnsNewFormat(w.format, w.passcode, v.live, w.live);
    }
  }

  /** zdtm_initialize, with the results of opening the log and of listening. */
  method Init(env: Env, logOpens: bool, listens: bool) returns (r: int)
    modifies env
    ensures r == if !logOpens then -1 else if !listens then -2 else 0
    ensures r == -1 ==> unchanged(env)
    ensures r != -1 ==> env.zaurusIp == NO_IP && env.syncType == SYNC_NOT_SET && !env.haveInfo && !env.haveSyncState
                        && ViewOf(env) == View(NO_FORMAT, CString([], Null), false, false, false, old(env.link.heap.live))
    ensures r != -1 ==> ViewOf(env).Sound()
    ensures env.model == old(env.model) && env.language == old(env.language) && env.authState == old(env.authState)
  {
    if !logOpens {
      return -1;
    }
    env.zaurusIp, env.syncType, env.haveInfo := NO_IP, SYNC_NOT_SET, false;
    env.haveSyncState, env.todoSlow, env.calendarSlow, env.addressSlow := false, false, false, false;
    env.format, env.passcode := NO_FORMAT, CString([], Null);
    r := if listens then 0 else -2;
  }

  /** zdtm_set_zaurus_ip. */
  method SetZaurusIp(env: Env, ip: Bytes)
    requires |ip| == |NO_IP|
    modifies env`zaurusIp
    ensures env.zaurusIp == ip
    ensures Permits(Configure, 0, old(ViewOf(env)), ViewOf(env))
  {
    env.zaurusIp := ip;
  }

  /** zdtm_set_sync_type: 0, 1 and 2 are the three types, anything else unsets it. */
  method SetSyncType(env: Env, kind: nat)
    modifies env`syncType
    ensures kind == 0 ==> env.syncType == 0x06
    ensures kind == 1 ==> env.syncType == 0x01
    ensures kind == 2 ==> env.syncType == 0x07
    ensures kind > 2 ==> env.syncType == 0x00
    ensures Permits(Configure, 0, old(ViewOf(env)), ViewOf(env))
  {
    env.syncType := if kind == 0 then 0x06 else if kind == 1 then 0x01 else if kind == 2 then 0x07 else 0x00;
  }

  /** zdtm_set_passcode: a copy in a new block. A passcode set before is lost, not freed. */
  method SetPasscode(env: Env, chars: Bytes) returns (r: int)
    requires env.link.heap.Valid()
    modifies env`passcode, env.link.heap
    ensures env.link.heap.Valid() && old(env.link.heap.live) <= env.link.heap.live
    ensures r == if env.link.heap.fails(old(env.link.heap.calls)) then -1 else 0
    ensures env.passcode.block.Null? <==> r != 0
    ensures r == 0 ==> env.passcode.chars == chars
    ensures Permits(Configure, r, old(ViewOf(env)), ViewOf(env))
  {
    var block := env.link.heap.Malloc();
    env.passcode := CString(if block.Null? then [] else chars, block);
    r := if block.Null? then -1 else 0;
  }

  /** zdtm_check_cur_auth_state, called by itself. */
  method CheckCurAuthState(env: Env) returns (r: int)
    requires env.link.heap.Valid() && (!env.haveInfo ==> env.link.Open())
    modifies env, env.link`log, env.link`requests, env.link`replies, env.link`from, env.link.conn, env.link.heap
    ensures env.link.heap.Valid() && r in {0, 1, -1}
    ensures r >= 0 ==> env.haveInfo && (r == 1 <==> env.authState in {0x0b, 0x07})
    ensures old(env.haveInfo) ==>
              unchanged(env) && unchanged(env.link) && unchanged(env.link.conn) && unchanged(env.link.heap)
    ensures Permits(CheckState, r, old(ViewOf(env)), ViewOf(env))
  {
    hide Link.Synced, StraysFrom, Exchange, Permits;
    ghost var before := ViewOf(env);
    if !env.haveInfo {
      env.link.Resume();
    }
    r := env.CheckCurAuthState();
    PermitsMore(CheckState, r, before, ViewOf(env));
  }

  /** zdtm_requires_slow_sync, called by itself. */
  method RequiresSlowSync(env: Env) returns (r: int)
    requires env.link.heap.Valid() && (!env.haveSyncState ==> env.link.Open())
    modifies env, env.link`log, env.link`requests, env.link`replies, env.link`from, env.link.conn, env.link.heap
    ensures env.link.heap.Valid() && r in {0, 1, -1, -2}
    ensures r >= 0 ==> env.haveSyncState
    ensures r == -2 <==> r != -1 && env.syncType !in {0x06, 0x01, 0x07}
    ensures r >= 0 && env.syncType == 0x06 ==> (r == 1 <==> env.todoSlow)
    ensures r >= 0 && env.syncType == 0x01 ==> (r == 1 <==> env.calendarSlow)
    ensures r >= 0 && env.syncType == 0x07 ==> (r == 1 <==> env.addressSlow)
    ensures old(env.haveSyncState) ==>
              unchanged(env) && unchanged(env.link) && unchanged(env.link.conn) && unchanged(env.link.heap)
    ensures Permits(CheckState, r, old(ViewOf(env)), ViewOf(env))
  {
    hide Link.Synced, StraysFrom, Exchange, Permits;
    ghost var before := ViewOf(env);
    if !env.haveSyncState {
      env.link.Resume();
    }
    r := env.RequiresSlowSync();
    PermitsMore(CheckState, r, before, ViewOf(env));
  }

  /** zdtm_initiate_sync, at any time: whatever became of the connection before, a new one is made.
      It keeps what the environment owns, and can succeed only without a format. After a success or
      a refusal the records are those of the new connection, from its first byte on. */
  method InitiateSync(env: Env, world: World) returns (r: int, ghost auth: bool, ghost slow: bool)
    requires env.link.heap.Valid() && Plausible(world)
    modifies env, env.link, env.link.heap
    ensures env.link.heap.Valid() && old(env.link.heap.calls) <= env.link.heap.calls
    ensures old(env.link.replies) <= env.link.replies && env.syncType == old(env.syncType)
    ensures fresh(env.link.conn) || env.link.conn == old(env.link.conn)
    ensures fresh(env.link.req) || env.link.req == old(env.link.req)
    ensures r in {0, 1} ==>
              && env.link.Synced() && fresh(env.link.conn) && env.link.conn.faulty == world.faulty
              && env.link.Begun(|old(env.link.log)| + 1, |old(env.link.requests)|, |old(env.link.replies)|, world.stream)
    ensures env.syncType == 0 ==> r == -7 && unchanged(env.link)
    ensures r == -5 <==> env.syncType != 0 && env.zaurusIp == NO_IP
    ensures r == 0 <==> env.link.log == old(env.link.log) + Handshake(old(env.haveInfo), auth, slow)
    ensures r == 0 ==> FormatSent(env.format, env.link.replies)
    ensures r == 1 <==> env.link.log == old(env.link.log) + Refusal(old(env.haveInfo))
    ensures var gained := env.link.replies[|old(env.link.replies)|..];
            var checked := CheckedState(old(env.haveInfo), old(env.authState), gained);
            && (auth <==> checked in {0x0b, 0x07})
            && (checked in {0x0b, 0x07} ==> Gated(old(env.link.log), env.link.log, old(env.haveInfo)))
            && (checked !in {0x0b, 0x07} ==> Passless(old(env.link.log), env.link.log))
    ensures old(env.Promising(world)) ==>
              && r == 0 && env.link.conn.incoming == After(world.stream, |old(env.Expected(world))|)
              && LastBody(env.link.replies) == BodyAt(world.stream, |old(env.Expected(world))| - 1)
    ensures old(env.Denied(world)) ==> r == 1
    ensures Permits(Initiate, r, old(ViewOf(env)), ViewOf(env))
  {
    hide FormatSent, Link.Synced, FormatHeld, FormatNew, Refusal, Handshake, Gated, Passless, HandshakeRequests;
    hide StraysFrom, CheckedState, Permits, Plausible, Link.Begun, Owns, Link.Open, OpeningLabels, HandshakeLabels;
    hide Has, After, BodyAt, Env.Promising, Env.Denied, Env.Expected, LastBody, Env.OpeningEndsIn, Env.LaterEndsIn;
    hide NO_IP;
    ghost var before := ViewOf(env);
    r, auth, slow := env.InitiateSync(world);
    if r == 0 {
      PermitsFormat(before, ViewOf(env));
    } else {
      PermitsMore(Initiate, r, before, ViewOf(env));
    }
  }

  /** zdtm_finalize: close up, then free every description, the format array and the passcode. */
  method Close(env: Env, stops: bool, logCloses: bool) returns (r: int)
    requires env.link.heap.Valid() && ViewOf(env).Sound()
    modifies env.link.heap
    ensures env.link.heap.Valid()
    ensures r == if !stops then -2 else if !logCloses then -1 else 0
    ensures r != 0 ==> unchanged(env.link.heap)
    ensures r == 0 ==>
              var mine := (if env.format.block.Block? then [env.format.block] + DescBlocks(env.format.params) else [])
                          + if env.passcode.block.Block? then [env.passcode.block] else [];
              && (forall b :: b in env.link.heap.live <==> b in old(env.link.heap.live) && Block(b) !in mine)
    ensures Permits(Finalize, r, old(ViewOf(env)), ViewOf(env))
  {
    if !stops {
      return -2;
    }
    if !logCloses {
      return -1;
    }
    var heap, f := env.link.heap, env.format;
    if f.block.Block? {
      FreeFormat(heap, f);
    }
    if env.passcode.block.Block? {
      heap.Free(env.passcode.block);
    }
    r := 0;
  }

  method FreeFormat(heap: Heap, f: ItemFormat)
    requires heap.Valid() && f.block.Block? && FormatHeld(f, heap.live)
    modifies heap`live, heap`retired
    ensures heap.Valid() && old(heap.retired) <= heap.retired
    ensures forall b :: b in heap.live <==> b in old(heap.live) && Block(b) !in [f.block] + DescBlocks(f.params)
  {
    ghost var live, mine := heap.live, [f.block] + DescBlocks(f.params);
    assert forall k :: 1 <= k < |mine| ==> mine[k] == f.params[k - 1].block;
    var i := 0;
    while i < f.numParams
      invariant i <= f.numParams == |f.params| && heap.Valid() && old(heap.retired) <= heap.retired
      invariant forall b :: b in heap.live <==> b in live && Block(b) !in mine[1..i + 1]
    {
      assert mine[1..i + 2] == mine[1..i + 1] + [mine[i + 1]];
      heap.Free(f.params[i].block);
      i := i + 1;
    }
    assert mine == [mine[0]] + mine[1..i + 1];
    heap.Free(f.block);
  }

  // The lists of sync ids.

  /** One list handed to the caller: ids, count and the block that holds them. */
  datatype OwnedIds = OwnedIds(ids: Count16<U32>, count: U16, block: Ptr)

  /** The six output variables of the caller. */
  class IdLists {
    var added: OwnedIds
    var modified: OwnedIds
    var deleted: OwnedIds

    constructor (added: OwnedIds, modified: OwnedIds, deleted: OwnedIds)
      ensures this.added == added && this.modified == modified && this.deleted == deleted
    {
      this.added, this.modified, this.deleted := added, modified, deleted;
    }

    function Lists(): seq<seq<U32>>
      reads this
    {
      [added.ids, modified.ids, deleted.ids]
    }

    function Blocks(): seq<Ptr>
      reads this
    {
      [added.block, modified.block, deleted.block]
    }

    predicate Counted()
      reads this
    {
      added.count == |added.ids| && modified.count == |modified.ids| && deleted.count == |deleted.ids|
    }
  }

  /** Three blocks, or none at all and the results of the allocations so far undone. */
  method ThreeBlocks(heap: Heap) returns (ok: bool, a: Ptr, b: Ptr, c: Ptr)
    requires heap.Valid()
    modifies heap
    ensures heap.Valid() && old(heap.retired) <= heap.retired && old(heap.calls) <= heap.calls
    ensures ok <==> Granted(heap.fails, old(heap.calls), 3)
    ensures !ok ==> heap.live == old(heap.live)
    ensures ok ==> Claims([a, b, c], old(heap.live), heap.live)
  {
    var k := heap.calls;
    ok, a, b, c := false, Null, Null, Null;
    a := heap.Malloc();
    if a.Null? {
      assert heap.fails(k);
      return;
    }
    b := heap.Malloc();
    if b.Null? {
      assert heap.fails(k + 1);
      heap.Free(a);
      return;
    }
    c := heap.Malloc();
    if c.Null? {
      assert heap.fails(k + 2);
      heap.Free(b);
      heap.Free(a);
      return;
    }
    var ps := [a, b, c];
    assert ps[0] == a && ps[1] == b && ps[2] == c;
    ok := true;
  }

  /** zdtm_obtain_sync_id_lists: RSY answered by ASY, and the three lists copied into blocks of the
      caller's. All six outputs are set or none is, and on failure none of the three blocks stays.
      `lost` are the arrays of the parsed reply, which nothing ever frees. */
  method ObtainSyncIdLists(env: Env, out: IdLists) returns (r: int, ghost lost: seq<Ptr>)
    requires env.link.Open() && env.link.heap.Valid()
    modifies out, env.link`log, env.link`requests, env.link`replies, env.link`from, env.link.conn, env.link.heap
    ensures env.link.heap.Valid() && old(env.link.heap.live) <= env.link.heap.live
    ensures old(env.link.heap.calls) <= env.link.heap.calls
    ensures old(env.link.Synced()) ==> env.link.from == old(env.link.from)
    ensures r in {0, -1, -2, -3, -4}
    ensures r != 0 ==> unchanged(out)
    ensures r == -4 ==> Claims(lost, old(env.link.heap.live), env.link.heap.live)
    ensures r == 0 ==> Claims(lost + out.Blocks(), old(env.link.heap.live), env.link.heap.live) && out.Counted()
    ensures r == 0 || r == -4 ==> |lost| == 3 && env.link.Synced()
                                  && env.link.log == old(env.link.log) + Exchange(RSY, ASY)
                                  && env.link.requests == old(env.link.requests) + [Rsy(env.syncType, 0x07)]
    ensures r in {-1, -2, -3} ==> StraysFrom(old(env.link.log), env.link.log, Exchange(RSY, ASY))
    ensures r == 0 ==>
              && |env.link.replies| == |old(env.link.replies)| + 1
              && var body := env.link.replies[|old(env.link.replies)|].body;
                 && DecodeAsy(body).Good?
                 && var wire := DecodeAsy(body).val;
                    out.Lists() == [wire.added.ids, wire.modified.ids, wire.deleted.ids]
    ensures old(env.link.Smooth(Serving(ASY))) ==>
              && r == 0 && env.link.conn.incoming == After(old(env.link.conn.incoming), 3)
              && env.link.replies[|old(env.link.replies)|].body == BodyAt(old(env.link.conn.incoming), 2)
    ensures Permits(FetchLists, r, old(ViewOf(env)), ViewOf(env))
  {
    hide Owns, Link.Open, Has, After, BodyAt, Serving, Holdings, Says, Exchange, Link.Synced, Claims, StraysFrom;
    hide Granted, DecodeAsy;
    OwnsLater(ViewOf(env));
    lost := [];
    var rmsg;
    r, rmsg := AskForLists(env);
    if r == 0 {
      var ok;
      ok, lost := TakeLists(env.link.heap, rmsg, out, old(env.link.heap.live));
      r := if ok then 0 else -4;
    }
  }

  /** RSY, and the message that brought its ASY, or no message left to clean. */
  method AskForLists(env: Env) returns (r: int, rmsg: Msg)
    requires env.link.Open() && env.link.heap.Valid()
    modifies env.link`log, env.link`requests, env.link`replies, env.link`from, env.link.conn, env.link.heap
    ensures env.link.heap.Valid() && old(env.link.heap.live) <= env.link.heap.live
    ensures old(env.link.heap.calls) <= env.link.heap.calls
    ensures old(env.link.Synced()) ==> env.link.from == old(env.link.from)
    ensures r in {0, -1, -2, -3}
    ensures fresh(rmsg) && (r == 0 ==> rmsg.PwBlock() == Null && rmsg.Owned(env.link.heap))
    ensures r == 0 ==> env.link.Synced() && env.link.log == old(env.link.log) + Exchange(RSY, ASY)
                       && env.link.requests == old(env.link.requests) + [Rsy(env.syncType, 0x07)]
                       && env.link.replies == old(env.link.replies) + [Reply(ASY, rmsg.rawBytes)]
    ensures r == 0 ==> Says(ASY, rmsg.rawBytes, rmsg.cont)
                       && (rmsg.raw.Block? ==> rmsg.raw.id !in old(env.link.heap.live))
                       && Claims(Holdings(ASY, rmsg.cont), old(env.link.heap.live) + Target(rmsg.raw), env.link.heap.live)
    ensures r != 0 ==> StraysFrom(old(env.link.log), env.link.log, Exchange(RSY, ASY))
    ensures old(env.link.Smooth(Serving(ASY))) ==>
              && r == 0 && env.link.conn.incoming == After(old(env.link.conn.incoming), 3)
              && rmsg.rawBytes == BodyAt(old(env.link.conn.incoming), 2)
  {
    hide Link.Open, Has, After, BodyAt, Asked, Serving, NoWriter, DeviceTag, Shaped, Matches, Erased, Link.Smooth;
    hide Link.Synced, Holdable, Claims, Holdings, Says, StraysFrom, Exchange, Ready;
    env.link.Resume();
    var q := Rsy(env.syncType, 0x07);
    FixedSizeIsReady(RSY, q);
    RepliesAreParsed();
    NothingErased(q);
    r, rmsg := env.link.Ask(RSY, q, ASY, true);
  }

  /** What becomes of an ASY reply: the copies for the caller if there is memory for them. */
  method TakeLists(heap: Heap, rmsg: Msg, out: IdLists, ghost before: set<nat>) returns (ok: bool, ghost lost: seq<Ptr>)
    requires heap.Valid() && rmsg.Owned(heap) && rmsg.PwBlock() == Null && (rmsg.raw.Block? ==> rmsg.raw.id !in before)
    requires Says(ASY, rmsg.rawBytes, rmsg.cont) && before <= heap.live
    requires Claims(Holdings(ASY, rmsg.cont), before + Target(rmsg.raw), heap.live)
    modifies heap, out, rmsg
    ensures heap.Valid() && before <= heap.live && old(heap.calls) <= heap.calls && |lost| == 3
    ensures !ok ==> unchanged(out) && Claims(lost, before, heap.live)
    ensures ok ==> Claims(lost + out.Blocks(), before, heap.live) && out.Counted()
    ensures DecodeAsy(old(rmsg.rawBytes)).Good?
    ensures var wire := DecodeAsy(old(rmsg.rawBytes)).val;
            ok ==> out.Lists() == [wire.added.ids, wire.modified.ids, wire.deleted.ids]
    ensures NoFailureFrom(heap.fails, old(heap.calls)) ==> ok
  {
    hide Claims, Holdings, Says, Granted, DecodeAsy, NoFailureFrom;
    ListsArrive(rmsg.rawBytes, rmsg.cont, before, rmsg.raw, heap.live);
    var asy := rmsg.cont.asy;
    lost := AsyBlocks(asy);
    ghost var parsed, raw := heap.live, Target(rmsg.raw);
    ok := HandOver(heap, rmsg, asy, out);
    if ok {
      JoinClaims(lost, out.Blocks(), before, parsed, raw, heap.live + raw);
      assert heap.live + raw - raw == heap.live;
    }
  }

  /** Copies of the three parsed lists for the caller, and the message cleaned up either way. */
  method HandOver(heap: Heap, rmsg: Msg, asy: AsyContent, out: IdLists) returns (ok: bool)
    requires heap.Valid() && rmsg.Owned(heap) && rmsg.PwBlock() == Null
    modifies heap, out, rmsg
    ensures heap.Valid() && old(heap.live) - Target(old(rmsg.raw)) <= heap.live
    ensures !ok ==> unchanged(out) && heap.live == old(heap.live) - Target(old(rmsg.raw))
    ensures ok ==> heap.live !! Target(old(rmsg.raw))
                   && Claims(out.Blocks(), old(heap.live), heap.live + Target(old(rmsg.raw)))
    ensures ok ==> out.Counted() && out.Lists() == [asy.added.ids, asy.modified.ids, asy.deleted.ids]
    ensures old(heap.calls) <= heap.calls && (NoFailureFrom(heap.fails, old(heap.calls)) ==> ok)
  {
    hide Claims, Granted;
    var a, b, c;
    AllGranted(heap.fails, heap.calls, 3);
    ok, a, b, c := ThreeBlocks(heap);
    if !ok {
      rmsg.Clean(heap);
      return;
    }
    NothingLost([a, b, c], old(heap.live), heap.live);
    ghost var held := heap.live;
    out.added := OwnedIds(asy.added.ids, |asy.added.ids|, a);
    out.modified := OwnedIds(asy.modified.ids, |asy.modified.ids|, b);
    out.deleted := OwnedIds(asy.deleted.ids, |asy.deleted.ids|, c);
    rmsg.Clean(heap);
    assert heap.live + Target(old(rmsg.raw)) == held;
  }

  lemma AllGranted(fails: nat -> bool, from: nat, n: nat)
    ensures NoFailureFrom(fails, from) ==> Granted(fails, from, n)
  {
  }

  lemma NothingLost(ps: seq<Ptr>, before: set<nat>, after: set<nat>)
    requires Claims(ps, before, after)
    ensures before <= after
  {
  }

  lemma JoinClaims(ps: seq<Ptr>, qs: seq<Ptr>, before: set<nat>, middle: set<nat>, raw: set<nat>, after: set<nat>)
    requires Claims(ps, before, middle - raw) && Claims(qs, middle, after) && raw <= middle
    ensures Claims(ps + qs, before, after - raw)
  {
    var all := ps + qs;
    forall b | b in after - raw ensures b in before || Block(b) in all {
      assert b in middle - raw || Block(b) in qs;
    }
  }

  lemma ListsArrive(body: Bytes, c: Content, before: set<nat>, raw: Ptr, live: set<nat>)
    requires Says(ASY, body, c) && Claims(Holdings(ASY, c), before + Target(raw), live)
    requires raw.Block? ==> raw.id !in before
    ensures c.AsyReply? && DecodeAsy(body).Good? && DecodeAsy(body).val == AsyValue(c.asy)
    ensures Claims(AsyBlocks(c.asy), before, live - Target(raw))
  {
    var ps := AsyBlocks(c.asy);
    forall b | b in live - Target(raw) ensures b in before || Block(b) in ps {
    }
  }

  // Single items.

  /** A request of this type for one item, by the sync type and the id, went out, and then what receiving its
      reply puts out. */
  ghost predicate IdOut(before: Bytes, after: Bytes, a: char, b: char, c: char, sync: Byte, id: int) {
    exists frame, mid ::
      WentOut(before, mid, frame) && AskedAndThanked(mid, after) && Layouts.IdFrame(frame, a, b, c, sync, id)
  }

  lemma IdGoesOut(before: Bytes, after: Bytes, tag: Tag, sync: Byte, id: U32)
    requires tag in {RDR, RDD} && Asked(before, after, tag, if tag == RDR then Rdr(sync, 1, id) else Rdd(sync, 1, id))
    ensures IdOut(before, after, 'R', 'D', if tag == RDR then 'R' else 'D', sync, id)
  {
    hide WentOut, EncodeFrame, Net.RequestFrame, Layouts.IdFrame, AskedAndThanked;
    Layouts.TypeLetters();
    var q := if tag == RDR then Rdr(sync, 1, id) else Rdd(sync, 1, id);
    var mid :| RequestOut(before, mid, tag, q) && AskedAndThanked(mid, after);
    var content: Content16 :|
      && |content| == ContSize(q) && Layouts.Carries(content, q)
      && WentOut(before, mid, EncodeFrame(Net.RequestFrame(tag, content)));
    Layouts.IdFrameSpelled(tag, content, 'R', 'D', if tag == RDR then 'R' else 'D', sync, id);
  }

  /** _zdtm_obtain_item: RDR answered by ADR; the parsed values become the caller's. */
  method ObtainItem(env: Env, syncId: U32) returns (r: int, params: seq<AdrParam>, block: Ptr)
    requires env.link.Open() && env.link.heap.Valid()
    modifies env.link`log, env.link`requests, env.link`replies, env.link`from, env.link.conn, env.link.heap
    ensures env.link.heap.Valid() && old(env.link.heap.live) <= env.link.heap.live
    ensures old(env.link.heap.calls) <= env.link.heap.calls
    ensures old(env.link.Synced()) ==> env.link.from == old(env.link.from)
    ensures r in {0, -1, -2, -3}
    ensures r == 0 ==> Claims([block] + DataBlocks(params), old(env.link.heap.live), env.link.heap.live)
    ensures r == 0 ==> env.link.Synced() && env.link.log == old(env.link.log) + Exchange(RDR, ADR)
                       && env.link.requests == old(env.link.requests) + [Rdr(env.syncType, 1, syncId)]
    ensures r == 0 ==> IdOut(old(env.link.conn.outgoing), env.link.conn.outgoing, 'R', 'D', 'R', env.syncType, syncId)
    ensures r != 0 ==> StraysFrom(old(env.link.log), env.link.log, Exchange(RDR, ADR))
    ensures r == 0 ==>
              && |env.link.replies| == |old(env.link.replies)| + 1 && old(env.link.replies) <= env.link.replies
              && var body := env.link.replies[|old(env.link.replies)|].body;
                 DecodeAdr(body).Good? && Values(params) == DecodeAdr(body).val.values
    ensures old(env.link.Smooth(Serving(ADR))) ==>
              && r == 0 && env.link.conn.incoming == After(old(env.link.conn.incoming), 3)
              && env.link.replies[|old(env.link.replies)|].body == BodyAt(old(env.link.conn.incoming), 2)
  {
    hide Owns, Link.Open, Has, After, BodyAt, Asked, Serving, IdOut, NoWriter, DeviceTag, Ready, Link.Smooth;
    hide Link.Synced, Holdable, Claims, Holdings, Says, StraysFrom, Exchange, Shaped, Matches, Erased, DecodeAdr;
    hide Values;
    env.link.Resume();
    params, block := [], Null;
    var q := Rdr(env.syncType, 1, syncId);
    FixedSizeIsReady(RDR, q);
    RepliesAreParsed();
    NothingErased(q);
    var body, cont;
    r, body, cont := env.link.Query(RDR, q, ADR, true);
    if r == 0 {
      ValuesArrive(body, cont, old(env.link.heap.live), env.link.heap.live);
      params, block := cont.adr.params, cont.adr.block;
      IdGoesOut(old(env.link.conn.outgoing), env.link.conn.outgoing, RDR, env.syncType, syncId);
    }
  }

  lemma NothingErased(q: Request)
    requires !q.Rrl?
    ensures Erased(q) == q
  {
  }

  lemma ValuesArrive(body: Bytes, c: Content, before: set<nat>, live: set<nat>)
    requires Says(ADR, body, c) && Claims(Holdings(ADR, c), before, live)
    ensures c.AdrReply? && DecodeAdr(body).Good? && Values(c.adr.params) == DecodeAdr(body).val.values
    ensures Claims([c.adr.block] + DataBlocks(c.adr.params), before, live)
  {
    hide Claims, DecodeAdr;
  }

  /** Does freeing an item's parameters free this block? Blocks of empty values are passed over. */
  ghost predicate Released(params: seq<AdrParam>, block: Ptr, b: nat) {
    Block(b) == block || exists i :: 0 <= i < |params| && params[i].paramLen != 0 && params[i].block == Block(b)
  }

  /** _zdtm_free_params. */
  method FreeParams(heap: Heap, params: seq<AdrParam>, block: Ptr) returns (r: int)
    requires heap.Valid() && (block.Block? ==> Held([block] + DataBlocks(params), heap.live))
    modifies heap`live, heap`retired
    ensures heap.Valid() && old(heap.retired) <= heap.retired
    ensures r == if block.Null? then -1 else 0
    ensures r != 0 ==> heap.live == old(heap.live)
    ensures r == 0 ==> forall b :: b in heap.live <==> b in old(heap.live) && !Released(params, block, b)
  {
    if block.Null? {
      return -1;
    }
    ghost var mine := [block] + DataBlocks(params);
    assert mine[0] == block && forall k :: 0 <= k < |params| ==> mine[k + 1] == params[k].block;
    var i := 0;
    while i < |params|
      invariant 0 <= i <= |params| && heap.Valid() && old(heap.retired) <= heap.retired
      invariant forall b :: b in heap.live <==>
                  b in old(heap.live)
                  && !(exists k :: 0 <= k < i && params[k].paramLen != 0 && params[k].block == Block(b))
    {
      if params[i].paramLen != 0 && params[i].block.Block? {
        heap.Free(params[i].block);
      }
      i := i + 1;
    }
    heap.Free(block);
    r := 0;
  }

  /** Everything the reply brought is released exactly when none of its values is empty. */
  lemma EmptyValuesStay(params: seq<AdrParam>, block: Ptr, before: set<nat>, live: set<nat>)
    requires Claims([block] + DataBlocks(params), before, live)
    ensures (forall b :: b in live && b !in before ==> Released(params, block, b))
            <==> (forall i :: 0 <= i < |params| ==> params[i].paramLen != 0)
  {
    hide Released;
    if i :| 0 <= i < |params| && params[i].paramLen == 0 {
      EmptyValueStays(params, block, before, live, i);
    } else {
      forall b | b in live && b !in before ensures Released(params, block, b) {
        NewIsReleased(params, block, before, live, b);
      }
    }
  }

  lemma EmptyValueStays(params: seq<AdrParam>, block: Ptr, before: set<nat>, live: set<nat>, i: nat)
    requires Claims([block] + DataBlocks(params), before, live) && i < |params| && params[i].paramLen == 0
    ensures var p := params[i].block; p.Block? && p.id in live && p.id !in before && !Released(params, block, p.id)
  {
    var mine := [block] + DataBlocks(params);
    assert mine[i + 1] == params[i].block && mine[0] == block;
    forall k | 0 <= k < |params| && params[k].paramLen != 0 ensures params[k].block != params[i].block {
      assert mine[k + 1] == params[k].block;
    }
  }

  lemma NewIsReleased(params: seq<AdrParam>, block: Ptr, before: set<nat>, live: set<nat>, b: nat)
    requires Claims([block] + DataBlocks(params), before, live) && b in live && b !in before
    requires forall i :: 0 <= i < |params| ==> params[i].paramLen != 0
    ensures Released(params, block, b)
  {
    var mine := [block] + DataBlocks(params);
    var k :| 0 <= k < |mine| && mine[k] == Block(b);
    assert k > 0 ==> mine[k] == params[k - 1].block;
  }

  function TypeOf(kind: Kind): Byte {
    match kind
    case TodoItem => SYNC_TYPE_TODO
    case CalendarItem => SYNC_TYPE_CALENDAR
    case AddressItem => SYNC_TYPE_ADDRESS
  }

  /** zdtm_obtain_todo_item and its two siblings: the item at a sync id, decoded by the format held. */
  method FetchItem(env: Env, kind: Kind, syncId: U32, item: Item) returns (r: int)
    requires env.link.heap.Valid() && (env.syncType == TypeOf(kind) ==> env.link.Open())
    modifies item, env.link`log, env.link`requests, env.link`replies, env.link`from, env.link.conn, env.link.heap
    ensures env.link.heap.Valid() && old(env.link.heap.live) <= env.link.heap.live
    ensures old(env.link.heap.calls) <= env.link.heap.calls
    ensures old(env.link.Synced()) ==> env.link.from == old(env.link.from)
    ensures r in {0, -1, -2, -3}
    ensures r == -1 <==>
              env.syncType != match kind case TodoItem => 0x06 case CalendarItem => 0x01 case AddressItem => 0x07
    ensures r == -1 ==> unchanged(env.link) && unchanged(item)
    ensures r == -2 ==> unchanged(item)
    ensures r == 0 || r == -3 ==>
              && env.link.Synced() && env.link.log == old(env.link.log) + Exchange(RDR, ADR)
              && env.link.requests == old(env.link.requests) + [Rdr(env.syncType, 1, syncId)]
              && |env.link.replies| == |old(env.link.replies)| + 1 && old(env.link.replies) <= env.link.replies
              && DecodeAdr(env.link.replies[|old(env.link.replies)|].body).Good?
    ensures r == 0 || r == -3 ==>
              IdOut(old(env.link.conn.outgoing), env.link.conn.outgoing, 'R', 'D', 'R', env.syncType, syncId)
    ensures env.syncType == TypeOf(kind) && old(env.link.Smooth(Serving(ADR))) ==>
              var body := BodyAt(old(env.link.conn.incoming), 2);
              && env.link.conn.incoming == After(old(env.link.conn.incoming), 3)
              && DecodeAdr(body).Good? && r == (if |DecodeAdr(body).val.values| == |env.format.params| then 0 else -3)
              && env.link.replies[|old(env.link.replies)|].body == body
    ensures r == 0 ==>
              var values := DecodeAdr(env.link.replies[|old(env.link.replies)|].body).val.values;
              && |values| == |env.format.params|
              && (Fit(kind, Format(env.format.params), values) ==>
                    ValueOf(item.cells) == StoreAll(kind, Format(env.format.params), values, old(ValueOf(item.cells))))
    ensures Permits(FetchOne, r, old(ViewOf(env)), ViewOf(env))
  {
    hide Owns, Link.Open;
    hide Link.Synced, Claims, StraysFrom, Exchange, StoreAll, ValueOf, Granted, Texts, StoppedAt, Released, Fit;
    hide IdOut, Has, After, BodyAt, Serving, DecodeAdr;
    OwnsLater(ViewOf(env));
    if env.syncType != TypeOf(kind) {
      return -1;
    }
    var params, block;
    r, params, block := ObtainItem(env, syncId);
    if r != 0 {
      return -2;
    }
    ghost var arrived := env.link.heap.live;
    AllGranted(env.link.heap.fails, env.link.heap.calls, Texts(kind, Format(env.format.params)));
    assert |Values(params)| == |params|;
    r := item.ParseParams(kind, env.format.params, params, env.link.heap);
    StillHeld([block] + DataBlocks(params), old(env.link.heap.live), arrived, env.link.heap.live);
    ghost var parsed := env.link.heap.live;
    var freed := FreeParams(env.link.heap, params, block);
    OnlyOwnReleased(params, block, old(env.link.heap.live), arrived, parsed, env.link.heap.live, freed == 0);
    r := if r != 0 then -3 else 0;
  }

  lemma StillHeld(ps: seq<Ptr>, before: set<nat>, arrived: set<nat>, now: set<nat>)
    requires Claims(ps, before, arrived) && arrived <= now
    ensures Held(ps, now)
  {
  }

  lemma OnlyOwnReleased(params: seq<AdrParam>, block: Ptr, before: set<nat>, arrived: set<nat>, parsed: set<nat>,
                        now: set<nat>, freed: bool)
    requires Claims([block] + DataBlocks(params), before, arrived) && arrived <= parsed
    requires !freed ==> now == parsed
    requires freed ==> forall b :: b in now <==> b in parsed && !Released(params, block, b)
    ensures before <= now
  {
    hide Released;
    forall b | b in before && freed ensures !Released(params, block, b) {
      OldStays(params, block, before, arrived, b);
    }
  }

  lemma OldStays(params: seq<AdrParam>, block: Ptr, before: set<nat>, arrived: set<nat>, b: nat)
    requires Claims([block] + DataBlocks(params), before, arrived) && b in before
    ensures !Released(params, block, b)
  {
    var mine := [block] + DataBlocks(params);
    assert mine[0] == block && forall k :: 0 <= k < |params| ==> mine[k + 1] == params[k].block;
  }

  // The remaining exchanges.

  /** zdtm_delete_item: RDD answered by AEX. */
  method DeleteItem(env: Env, syncId: U32) returns (r: int)
    requires env.link.Open() && env.link.heap.Valid()
    modifies env.link`log, env.link`requests, env.link`replies, env.link`from, env.link.conn, env.link.heap
    ensures env.link.heap.Valid() && old(env.link.heap.live) <= env.link.heap.live
    ensures old(env.link.heap.calls) <= env.link.heap.calls
    ensures old(env.link.Synced()) ==> env.link.from == old(env.link.from)
    ensures r == 0 ==> env.link.Synced() && env.link.log == old(env.link.log) + Exchange(RDD, AEX)
                       && env.link.requests == old(env.link.requests) + [Rdd(env.syncType, 1, syncId)]
    ensures r != 0 ==> StraysFrom(old(env.link.log), env.link.log, Exchange(RDD, AEX))
    ensures r == 0 ==> IdOut(old(env.link.conn.outgoing), env.link.conn.outgoing, 'R', 'D', 'D', env.syncType, syncId)
    ensures old(env.link.Smooth(Serving(AEX))) ==>
              r == 0 && env.link.conn.incoming == After(old(env.link.conn.incoming), 3)
    ensures Permits(Exchanges, r, old(ViewOf(env)), ViewOf(env))
  {
    hide Owns, Link.Open, Has, After, BodyAt, Asked, Serving, NoWriter, DeviceTag, Ready, Link.Smooth, IdOut;
    hide Link.Synced, Holdable, Claims, Holdings, Says, StraysFrom, Exchange, Shaped, Matches, Erased;
    env.link.Resume();
    OwnsLater(ViewOf(env));
    var q := Rdd(env.syncType, 1, syncId);
    FixedSizeIsReady(RDD, q);
    RepliesAreParsed();
    NothingErased(q);
    var body, cont;
    r, body, cont := env.link.Query(RDD, q, AEX, true);
    if r == 0 {
      IdGoesOut(old(env.link.conn.outgoing), env.link.conn.outgoing, RDD, env.syncType, syncId);
    }
  }

  /** _zdtm_state_sync_done: RDS answered by AEX. */
  method StateSyncDone(env: Env) returns (r: int)
    requires env.link.Open() && env.link.heap.Valid()
    modifies env.link`log, env.link`requests, env.link`replies, env.link`from, env.link.conn, env.link.heap
    ensures env.link.heap.Valid() && old(env.link.heap.live) <= env.link.heap.live
    ensures old(env.link.heap.calls) <= env.link.heap.calls
    ensures old(env.link.Synced()) ==> env.link.from == old(env.link.from)
    ensures r == 0 ==> env.link.Synced() && env.link.log == old(env.link.log) + Exchange(RDS, AEX)
                       && env.link.requests == old(env.link.requests) + [Rds(env.syncType, 0x07, (0x00, 0x00))]
    ensures r != 0 ==> StraysFrom(old(env.link.log), env.link.log, Exchange(RDS, AEX))
    ensures old(env.link.Smooth(Serving(AEX))) ==>
              r == 0 && env.link.conn.incoming == After(old(env.link.conn.incoming), 3)
    ensures Permits(Exchanges, r, old(ViewOf(env)), ViewOf(env))
  {
    hide Owns, Link.Open, Has, After, BodyAt, Asked, Serving, NoWriter, DeviceTag, Ready, Link.Smooth, IdOut;
    hide Link.Synced, Holdable, Claims, Holdings, Says, StraysFrom, Exchange, Shaped, Matches, Erased;
    env.link.Resume();
    OwnsLater(ViewOf(env));
    var q := Rds(env.syncType, 0x07, (0x00, 0x00));
    FixedSizeIsReady(RDS, q);
    RepliesAreParsed();
    NothingErased(q);
    var body, cont;
    r, body, cont := env.link.Query(RDS, q, AEX, true);
  }

  /** The end of a session: a reply of any type, then the device's request signal and a last RAY. */
  function Farewell(reply: Tag): Trace {
    Exchange(RQT, reply) + [In(Sig(Rqst)), Out(Gen(RAY))]
  }

  /** zdtm_terminate_sync, with the result of closing the connection. `reply` is the type of the
      device's answer to RQT, which is not looked at. */
  method TerminateSync(env: Env, closes: bool) returns (r: int, ghost reply: Tag)
    requires env.link.Open() && env.link.heap.Valid()
    modifies env.link`log, env.link`requests, env.link`replies, env.link`from, env.link.conn, env.link.heap
    ensures env.link.heap.Valid() && old(env.link.heap.live) <= env.link.heap.live
    ensures old(env.link.heap.calls) <= env.link.heap.calls
    ensures old(env.link.Synced()) ==> env.link.from == old(env.link.from)
    ensures r in {0, -1, -2, -3, -4, -5} && (r == -5 ==> !closes) && (r == 0 ==> closes)
    ensures r == 0 || r == -5 ==> env.link.Synced() && env.link.log == old(env.link.log) + Farewell(reply)
                                  && env.link.requests == old(env.link.requests) + [Rqt((0x00, 0x00, 0x00)), Bare]
    ensures r in {-1, -2, -3, -4} ==> StraysFrom(old(env.link.log), env.link.log, Farewell(reply))
    ensures forall answer :: DeviceTag(answer) && old(env.link.Smooth(Serving(answer) + [Sig(Rqst)])) ==>
                               r == if closes then 0 else -5
    ensures Permits(Exchanges, r, old(ViewOf(env)), ViewOf(env))
  {
    hide Owns, Link.Open, Farewell, Link.Synced, StraysFrom, Sending, Has, After, Serving, Taking, DeviceTag, Answered;
    env.link.Resume();
    OwnsLater(ViewOf(env));
    FarewellHeard(env.link.conn.incoming);
    ghost var start := env.link.log;
    reply := RQT;
    r := SendQuit(env);
    if r != 0 {
      UnansweredFarewell(start, env.link.log, reply);
    } else {
      r, reply := LastWords(env, start, closes);
    }
  }

  /** RQT, acknowledged. */
  method SendQuit(env: Env) returns (r: int)
    requires env.link.Synced() && env.link.heap.Valid()
    modifies env.link`log, env.link`requests, env.link`replies, env.link.conn, env.link.heap
    ensures env.link.heap.Valid() && old(env.link.heap.live) <= env.link.heap.live
    ensures old(env.link.heap.calls) <= env.link.heap.calls
    ensures r in {0, -1}
    ensures r == 0 ==> env.link.Synced() && env.link.log == old(env.link.log) + Sending(RQT)
                       && env.link.requests == old(env.link.requests) + [Rqt((0x00, 0x00, 0x00))]
    ensures r != 0 ==> StraysFrom(old(env.link.log), env.link.log, Sending(RQT))
    ensures old(env.link.Smooth(Taking())) ==>
              r == 0 && env.link.conn.incoming == After(old(env.link.conn.incoming), 2)
  {
    hide Has, After, BodyAt, Taking, NoWriter, RequestOut, Ready, Link.Synced, StraysFrom, Sending, Link.Smooth;
    hide Shaped, Erased;
    var q := Rqt((0x00, 0x00, 0x00));
    FixedSizeIsReady(RQT, q);
    NothingErased(q);
    var msg := new Msg.Request(RQT, q);
    r := env.link.WrappedSend(msg);
    r := if r == 0 then 0 else -1;
  }

  /** The frames of a farewell, whatever the type of the reply. */
  lemma FarewellHeard(b: Bytes)
    ensures forall t: Tag {:trigger Serving(t)} ::
              DeviceTag(t) && Has(b, Serving(t) + [Sig(Rqst)]) ==>
                Has(b, Taking()) && Answered(After(b, 2)) && Has(After(After(b, 2), 1), [Sig(Rqst)])
  {
    hide Has, After, NextFrame, DeviceTag;
    forall t: Tag | DeviceTag(t) && Has(b, Serving(t) + [Sig(Rqst)])
      ensures Has(b, Taking()) && Answered(After(b, 2)) && Has(After(After(b, 2), 1), [Sig(Rqst)]) {
      HasMore(b, Serving(t), [Sig(Rqst)]);
      HasMore(b, Taking(), [Gen(t)]);
      AfterMore(b, 2, 1);
      HasOne(After(b, 2), Gen(t));
    }
  }

  /** The rest of the farewell once RQT is acknowledged. */
  method LastWords(env: Env, ghost start: Trace, closes: bool) returns (r: int, ghost reply: Tag)
    requires env.link.Synced() && env.link.heap.Valid() && env.link.log == start + Sending(RQT)
    modifies env.link`log, env.link`requests, env.link`replies, env.link.conn, env.link.heap
    ensures env.link.heap.Valid() && old(env.link.heap.live) <= env.link.heap.live
    ensures old(env.link.heap.calls) <= env.link.heap.calls
    ensures r in {0, -2, -3, -4, -5} && (r == -5 ==> !closes) && (r == 0 ==> closes)
    ensures r == 0 || r == -5 ==> env.link.Synced() && env.link.log == start + Farewell(reply)
                                  && env.link.requests == old(env.link.requests) + [Bare]
    ensures r in {-2, -3, -4} ==> StraysFrom(start, env.link.log, Farewell(reply))
    ensures old(env.link.Calm() && Answered(env.link.conn.incoming)
                && Has(After(env.link.conn.incoming, 1), [Sig(Rqst)])) ==>
              r == if closes then 0 else -5
  {
    hide Has, After, Answered, Link.Synced, StraysFrom, Sending, Receiving, Unexpected, Ready, Farewell, Erased, Shaped;
    hide NoWriter, Sendable;
    r, reply := HearAny(env, start);
    if r != 0 {
      return;
    }
    FarewellInSteps(start, reply);
    ghost var rest;
    r, rest := env.link.Await(Rqst);
    if r != 2 {
      Stray(start, env.link.log, Farewell(reply), 6, rest);
      return -3, reply;
    }
    FixedSizeIsReady(RAY, Bare);
    NothingErased(Bare);
    var msg := new Msg.Request(RAY, Bare);
    r := env.link.SendMessage(msg);
    if r != 0 {
      StrayNowhere(start, env.link.log, Farewell(reply), 7);
      return -4, reply;
    }
    r := if closes then 0 else -5;
  }

  /** A reply of a type that can be parsed comes next. */
  predicate Answered(b: Bytes) {
    var n := NextFrame(b);
    n.Received? && n.frame.General? && DeviceTag(n.frame.tag)
  }

  /** A reply of any type. */
  method HearAny(env: Env, ghost start: Trace) returns (r: int, ghost reply: Tag)
    requires env.link.Synced() && env.link.heap.Valid() && env.link.log == start + Sending(RQT)
    modifies env.link`log, env.link`replies, env.link.conn, env.link.heap
    ensures env.link.heap.Valid() && old(env.link.heap.live) <= env.link.heap.live
    ensures old(env.link.heap.calls) <= env.link.heap.calls
    ensures OnlyContent(old(env.link.heap.live), env.link.heap.live)
    ensures r in {0, -2}
    ensures r == 0 ==> env.link.Synced() && env.link.log == start + Sending(RQT) + Receiving(reply)
    ensures r != 0 ==> StraysFrom(start, env.link.log, Farewell(reply))
    ensures old(env.link.Calm() && Answered(env.link.conn.incoming)) ==>
              r == 0 && env.link.conn.incoming == After(old(env.link.conn.incoming), 1)
  {
    hide Link.Synced, Holdable, Claims, Holdings, Says, StraysFrom, Sending, Receiving, CutShort, Farewell, Link.Calm;
    hide DeviceTag, NextFrame, OnlyContent;
    ghost var asked := env.link.log;
    OneFrame(env.link.conn.incoming);
    var rmsg := new Msg();
    r := env.link.WrappedRecv(rmsg);
    reply := rmsg.tag;
    OnlyWithoutRaw(old(env.link.heap.live), rmsg.raw, env.link.heap.live);
    ghost var kept := env.link.heap.live - Target(rmsg.raw);
    rmsg.Clean(env.link.heap);
    assert env.link.heap.live == kept;
    if r != 0 {
      RefusedFarewell(start, asked, env.link.log, reply);
      r := -2;
    }
  }

  lemma OneFrame(b: Bytes)
    ensures NextFrame(b).Received? ==> After(b, 1) == NextFrame(b).rest
  {
  }

  lemma FarewellInSteps(start: Trace, reply: Tag)
    ensures var w := Farewell(reply);
            && |w| == 8 && start + Sending(RQT) + Receiving(reply) == start + w[..6]
            && start + w[..6] + [In(Sig(Rqst))] == start + w[..7] && start + w[..7] + [Out(Gen(RAY))] == start + w
  {
  }

  lemma UnansweredFarewell(start: Trace, log: Trace, reply: Tag)
    requires StraysFrom(start, log, Sending(RQT))
    ensures StraysFrom(start, log, Farewell(reply))
  {
    var later := Receiving(reply) + [In(Sig(Rqst)), Out(Gen(RAY))];
    assert start + [] == start && [] + Sending(RQT) + later == Farewell(reply);
    StrayInside(start, [], log, Sending(RQT), later);
  }

  lemma RefusedFarewell(start: Trace, asked: Trace, log: Trace, reply: Tag)
    requires asked == start + Sending(RQT)
    requires CutShort(asked, log) || exists s :: log == asked + [Out(Sig(Rqst)), In(Sig(s))]
    ensures StraysFrom(start, log, Farewell(reply))
  {
    AnswerStrays(start, asked, log, Sending(RQT), reply);
    assert start + [] == start && [] + (Sending(RQT) + Receiving(reply)) + [In(Sig(Rqst)), Out(Gen(RAY))] == Farewell(reply);
    StrayInside(start, [], log, Sending(RQT) + Receiving(reply), [In(Sig(Rqst)), Out(Gen(RAY))]);
  }
}
