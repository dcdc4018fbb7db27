/** Any sequence of calls between two initializations: what all of them keep, and a client that makes
    an arbitrary one. */
module Histories {
  import opened Wire
  import opened Memory
  import opened Replies
  import opened Links
  import opened Session
  import opened ItemFields
  import opened Items
  import opened Library
  import opened ReplyParsers
  import opened Transcripts

  /** One call: which, its result, and the environment around it. */
  datatype Episode = Episode(call: Call, result: int, before: View, after: View)

  /** Calls one after the other, each doing what it may, none of them zdtm_initialize. */
  ghost predicate History(h: seq<Episode>) {
    && (forall k :: 0 <= k < |h| ==> h[k].call != Initialize && Permits(h[k].call, h[k].result, h[k].before, h[k].after))
    && (forall k :: 0 <= k < |h| - 1 ==> h[k].after == h[k + 1].before)
  }

  /** Between two initializations a slow-sync flag that is set stays set, and a format that is held
      stays the same one. */
  lemma {:induction false} HistoryKeeps(h: seq<Episode>, i: nat, j: nat)
    requires History(h) && i <= j < |h|
    ensures var v, w := h[i].after, h[j].after;
            && (v.todoSlow ==> w.todoSlow) && (v.calendarSlow ==> w.calendarSlow) && (v.addressSlow ==> w.addressSlow)
            && (v.format.block.Block? ==> w.format == v.format)
    decreases j
  {
    hide Owns;
    if i < j {
      HistoryKeeps(h, i, j - 1);
      assert h[j - 1].after == h[j - 1 + 1].before;
      assert Permits(h[j].call, h[j].result, h[j].before, h[j].after);
    }
  }

  /** Between two initializations zdtm_initiate_sync succeeds at most once. */
  lemma SucceedsOnce(h: seq<Episode>, i: nat, j: nat)
    requires History(h) && i < j < |h|
    requires h[i].call == Initiate && h[i].result == 0
    ensures h[j].call == Initiate ==> h[j].result != 0
  {
    hide Owns;
    HistoryKeeps(h, i, j - 1);
    assert h[j - 1].after == h[j - 1 + 1].before;
    assert Permits(h[i].call, h[i].result, h[i].before, h[i].after);
  }

  /** And at every point before zdtm_finalize a format that is held is owned: as many rows as recorded,
      each description of the recorded length in a live block of its own. */
  lemma {:induction false} AlwaysOwned(h: seq<Episode>, k: nat)
    requires History(h) && k < |h| && h[0].before.Sound()
    requires forall i :: 0 <= i <= k ==> h[i].call != Finalize
    ensures h[k].before.Sound() && h[k].after.Sound()
  {
    hide Owns;
    if k > 0 {
      AlwaysOwned(h, k - 1);
      assert h[k - 1].after == h[k - 1 + 1].before;
    }
    assert Permits(h[k].call, h[k].result, h[k].before, h[k].after);
  }

  // A client.

  /** What a client may ask for, with everything the world decides about it. */
  datatype Command =
    | SetAddress(ip: Bytes)
    | SetType(number: nat)
    | SetCode(chars: Bytes)
    | Sync(world: World)
    | CheckAuth
    | CheckSlow
    | Lists
    | Fetch(kind: Kind, itemId: U32, cells: map<Field, Cell>)
    | Delete(deletedId: U32)
    | Finish
    | Terminate(closes: bool)

  predicate Proper(c: Command) {
    match c
    case SetAddress(ip) => |ip| == |NO_IP|
    case Sync(world) => Plausible(world)
    case _ => true
  }

  function CallOf(c: Command): Call {
    match c
    case SetAddress(_) => Configure
    case SetType(_) => Configure
    case SetCode(_) => Configure
    case Sync(_) => Initiate
    case CheckAuth => CheckState
    case CheckSlow => CheckState
    case Lists => FetchLists
    case Fetch(_, _, _) => FetchOne
    case Delete(_) => Exchanges
    case Finish => Exchanges
    case Terminate(_) => Exchanges
  }

  /** Everything that uses the connection there is, other than to replace it, needs the rest of what
      the device sends over it to be readable; whatever else went wrong there before does not matter. */
  predicate Possible(env: Env, c: Command)
    reads env, env.link, env.link.conn
  {
    match c
    case SetAddress(_) => true
    case SetType(_) => true
    case SetCode(_) => true
    case Sync(_) => true
    case CheckAuth => env.haveInfo || env.link.Open()
    case CheckSlow => env.haveSyncState || env.link.Open()
    case Fetch(kind, _, _) => env.syncType != TypeOf(kind) || env.link.Open()
    case _ => env.link.Open()
  }

  /** One call, if it is possible. */
  method Perform(env: Env, c: Command) returns (r: int, ghost e: Episode)
    requires env.link.heap.Valid() && Proper(c)
    modifies env, env.link, env.link.conn, env.link.heap
    ensures env.link.heap.Valid()
    ensures fresh(env.link.conn) || env.link.conn == old(env.link.conn)
    ensures e == Episode(if old(Possible(env, c)) then CallOf(c) else Withheld, r, old(ViewOf(env)), ViewOf(env))
    ensures Permits(e.call, e.result, e.before, e.after)
  {
    hide Owns, Link.Synced, Link.Open, Permits, FormatHeld, Link.Begun, Gated, Passless, StraysFrom;
    hide Claims;
    ghost var before := ViewOf(env);
    r := 0;
    if !Possible(env, c) {
      NothingDone(before);
      e := Episode(Withheld, r, before, before);
      return;
    }
    match c {
      case SetAddress(ip) =>
        SetZaurusIp(env, ip);
      case SetType(number) =>
        SetSyncType(env, number);
      case SetCode(chars) =>
        r := SetPasscode(env, chars);
      case Sync(world) =>
        ghost var auth, slow;
        r, auth, slow := Library.InitiateSync(env, world);
      case CheckAuth =>
        r := Library.CheckCurAuthState(env);
      case CheckSlow =>
        r := Library.RequiresSlowSync(env);
      case Lists =>
        var none := OwnedIds([], 0, Null);
        var out := new IdLists(none, none, none);
        ghost var lost;
        r, lost := ObtainSyncIdLists(env, out);
      case Fetch(kind, id, cells) =>
        var item := new Item(cells);
        r := FetchItem(env, kind, id, item);
      case Delete(id) =>
        r := DeleteItem(env, id);
      case Finish =>
        r := StateSyncDone(env);
      case Terminate(closes) =>
        ghost var reply;
        r, reply := TerminateSync(env, closes);
    }
    e := Episode(CallOf(c), r, before, ViewOf(env));
  }

  lemma NothingDone(v: View)
    ensures Permits(Withheld, 0, v, v)
  {
  }

  /** A client that makes any calls in any order, trying again after refusals and failures as often as
      it likes, against any devices with readable bodies that fit the library's buffers:
      zdtm_initiate_sync returns 0 at most once, no slow-sync flag is ever reset, and at every point
      the environment owns the format and the passcode it holds. */
  method Drive(env: Env, script: seq<Command>) returns (rs: seq<int>, ghost h: seq<Episode>)
    requires env.link.heap.Valid() && ViewOf(env).Sound()
    requires forall c :: c in script ==> Proper(c)
    modifies env, env.link, env.link.conn, env.link.heap
    ensures env.link.heap.Valid() && ViewOf(env).Sound()
    ensures |rs| == |h| == |script| && History(h)
    ensures forall k :: 0 <= k < |h| ==> h[k].call in {CallOf(script[k]), Withheld} && h[k].result == rs[k]
    ensures forall k :: 0 <= k < |h| && script[k].Sync? ==> h[k].call == Initiate
    ensures forall k :: 0 <= k < |h| ==> h[k].before.Sound() && h[k].after.Sound()
    ensures forall i, j :: 0 <= i < j < |script| && script[i].Sync? && script[j].Sync? ==> rs[i] != 0 || rs[j] != 0
    ensures h != [] ==> h[0].before == old(ViewOf(env)) && h[|h| - 1].after == ViewOf(env)
  {
    hide Owns, Permits, Possible, CallOf;
    rs, h := [], [];
    for n := 0 to |script|
      invariant env.link.heap.Valid() && (fresh(env.link.conn) || env.link.conn == old(env.link.conn))
      invariant |rs| == |h| == n && History(h)
      invariant forall k :: 0 <= k < n ==> h[k].call in {CallOf(script[k]), Withheld} && h[k].result == rs[k]
      invariant forall k :: 0 <= k < n && script[k].Sync? ==> h[k].call == Initiate
      invariant if n == 0 then ViewOf(env) == old(ViewOf(env))
                else h[0].before == old(ViewOf(env)) && h[n - 1].after == ViewOf(env)
    {
      ghost var e;
      var r;
      SyncIsPossible(env, script[n]);
      r, e := Perform(env, script[n]);
      NotInitialize(script[n]);
      rs, h := rs + [r], h + [e];
    }
    forall k | 0 <= k < |h| ensures h[k].before.Sound() && h[k].after.Sound() {
      forall i | 0 <= i <= k ensures h[i].call != Finalize { NotInitialize(script[i]); }
      AlwaysOwned(h, k);
    }
    forall i, j | 0 <= i < j < |script| && script[i].Sync? && script[j].Sync? ensures rs[i] != 0 || rs[j] != 0 {
      if rs[i] == 0 {
        SucceedsOnce(h, i, j);
      }
    }
  }

  lemma SyncIsPossible(env: Env, c: Command)
    ensures c.Sync? ==> Possible(env, c) && CallOf(c) == Initiate
  {
  }

  lemma NotInitialize(c: Command)
    ensures CallOf(c) !in {Initialize, Finalize, Withheld}
  {
  }

  /** From zdtm_initialize to zdtm_finalize: whatever happened between, nothing the environment holds
      at the end stays allocated. */
  method Lifetime(env: Env, script: seq<Command>) returns (rs: seq<int>, ghost h: seq<Episode>)
    requires env.link.heap.Valid() && forall c :: c in script ==> Proper(c)
    modifies env, env.link, env.link.conn, env.link.heap
    ensures env.link.heap.Valid() && |rs| == |h| == |script| && History(h)
    ensures forall i, j :: 0 <= i < j < |script| && script[i].Sync? && script[j].Sync? ==> rs[i] != 0 || rs[j] != 0
    ensures env.passcode.block.Block? ==> env.passcode.block.id !in env.link.heap.live
    ensures env.format.block.Block? ==>
              forall p :: p in [env.format.block] + DescBlocks(env.format.params) ==> p.Block? && p.id !in env.link.heap.live
  {
    hide Permits, History;
    var r := Init(env, true, true);
    rs, h := Drive(env, script);
    r := Close(env, true, true);
  }

  // An item from the wire to the client.

  /** What storing the values of an ADR body by the format of an ADI body makes of a structure, when the
      bodies are those a device sends for an item. */
  lemma ItemArrives(kind: Kind, adi: AdiWire, unknown: (Byte, Byte), sent: map<Field, Bytes32>, before: Value,
                    adiBody: Bytes, adrBody: Bytes, afterAdi: Bytes, afterAdr: Bytes)
    requires DistinctKeys(adi.rows) && Laid(kind, before)
    requires forall f :: f in sent ==> LaidAt(kind, sent, f) && Listed(kind, adi.rows, f)
    requires adiBody == EncodeAdi(adi) + afterAdi
    requires adrBody == EncodeAdr(AdrWire(unknown, InOrder(kind, adi.rows, sent))) + afterAdr
    requires DecodeAdi(adiBody).Good? && DecodeAdr(adrBody).Good?
    ensures var rows, values := DecodeAdi(adiBody).val.rows, DecodeAdr(adrBody).val.values;
            && |rows| == |values| && Fit(kind, rows, values)
            && Holds(StoreAll(kind, rows, values, before), sent)
  {
    hide DistinctKeys, Laid, LaidAt, Listed, EncodeAdi, DecodeAdi, EncodeAdr, DecodeAdr, InOrder, StoreAll, Fit;
    ItemRoundTrip(kind, adi, unknown, sent, before, afterAdi, afterAdr);
  }

  /** A session opened and an item fetched in it: if the device describes the item's format and sends the
      item, the client's structure holds the item, whatever it held before. The format may list the
      item's fields in any order and others besides; its keys are distinct and include the item's. And if
      nothing fails and the device sends the frames of the handshake and of the item, both calls do
      succeed. */
  method SyncAndFetch(env: Env, world: World, kind: Kind, itemId: U32, item: Item, ghost adi: AdiWire,
                      ghost unknown: (Byte, Byte), ghost sent: map<Field, Bytes32>, ghost afterAdi: Bytes,
                      ghost afterAdr: Bytes)
    returns (begun: int, fetched: int)
    requires env.link.heap.Valid() && Plausible(world)
    requires DistinctKeys(adi.rows) && Laid(kind, ValueOf(item.cells))
    requires forall f :: f in sent ==> LaidAt(kind, sent, f) && Listed(kind, adi.rows, f)
    modifies env, env.link, env.link.heap, item
    ensures env.link.heap.Valid() && fetched <= 0
    ensures begun == 0 && fetched == 0 ==>
              var n := |env.link.replies|;
              && n >= 2
              && (env.link.replies[n - 2] == Reply(ADI, EncodeAdi(adi) + afterAdi)
                  && env.link.replies[n - 1].body == EncodeAdr(AdrWire(unknown, InOrder(kind, adi.rows, sent))) + afterAdr ==>
                    Holds(ValueOf(item.cells), sent))
    ensures old(env.Promising(world)) && old(env.syncType) == TypeOf(kind)
            && ItemToCome(world.stream, old(env.Expected(world)), kind, adi, unknown, sent, afterAdi, afterAdr) ==>
              begun == 0 && fetched == 0 && Holds(ValueOf(item.cells), sent)
  {
    hide *;
    ghost var before, auth, slow := ValueOf(item.cells), false, false;
    ghost var calls, told, first := env.link.heap.calls, env.link.replies, env.Expected(world);
    ghost var promised := env.Promising(world);
    PromiseIsCalm(env, world);
    ItemHeard(world.stream, first, kind, adi, unknown, sent, afterAdi, afterAdr);
    begun, auth, slow := Library.InitiateSync(env, world);
    fetched := -1;
    if begun == 0 {
      SyncedIsOpen(env.link);
      told := env.link.replies;
      assert promised ==> !env.link.conn.faulty;
      CalmIsSmooth(env.link, calls);
      fetched := FetchItem(env, kind, itemId, item);
      ghost var replies := env.link.replies;
      if promised && env.syncType == TypeOf(kind)
         && ItemToCome(world.stream, first, kind, adi, unknown, sent, afterAdi, afterAdr) {
        CountsAgree(kind, env.format, told, adi, unknown, sent, before, replies[|told|].body, afterAdi, afterAdr);
      }
      if fetched == 0 {
        assert replies[..|told|] == told;
        Fetched(kind, env.format, replies, adi, unknown, sent, before, ValueOf(item.cells), afterAdi, afterAdr);
      }
    }
  }

  /** Behind the frames of a handshake, the last of which describes the format, the item follows. */
  ghost predicate ItemToCome(stream: Bytes, first: seq<Label>, kind: Kind, adi: AdiWire, unknown: (Byte, Byte),
                             sent: map<Field, Bytes32>, afterAdi: Bytes, afterAdr: Bytes) {
    && |first| > 0 && Has(stream, first + Serving(ADR))
    && BodyAt(stream, |first| - 1) == EncodeAdi(adi) + afterAdi
    && BodyAt(stream, |first| + 2) == EncodeAdr(AdrWire(unknown, InOrder(kind, adi.rows, sent))) + afterAdr
  }

  lemma ItemHeard(stream: Bytes, first: seq<Label>, kind: Kind, adi: AdiWire, unknown: (Byte, Byte),
                  sent: map<Field, Bytes32>, afterAdi: Bytes, afterAdr: Bytes)
    ensures ItemToCome(stream, first, kind, adi, unknown, sent, afterAdi, afterAdr) ==>
              && |first| > 0 && Has(stream, first) && Has(After(stream, |first|), Serving(ADR))
              && BodyAt(stream, |first| - 1) == EncodeAdi(adi) + afterAdi
              && BodyAt(After(stream, |first|), 2)
                 == EncodeAdr(AdrWire(unknown, InOrder(kind, adi.rows, sent))) + afterAdr
  {
    hide Has, After, BodyAt, EncodeAdi, EncodeAdr, InOrder, Serving;
    HasMore(stream, first, Serving(ADR));
    BodyMore(stream, |first|, 2);
  }

  lemma PromiseIsCalm(env: Env, world: World)
    ensures env.Promising(world) ==> !world.faulty && NoFailureFrom(env.link.heap.fails, env.link.heap.calls)
  {
  }

  lemma CalmIsSmooth(link: Link, calls: nat)
    requires calls <= link.heap.calls
    ensures !link.conn.faulty && NoFailureFrom(link.heap.fails, calls) && Has(link.conn.incoming, Serving(ADR)) ==>
              link.Smooth(Serving(ADR))
  {
    hide Has;
  }

  /** The format a device described has a row for every value of the item it then sends. */
  lemma CountsAgree(kind: Kind, format: ItemFormat, told: seq<Reply>, adi: AdiWire, unknown: (Byte, Byte),
                    sent: map<Field, Bytes32>, before: Value, adrBody: Bytes, afterAdi: Bytes, afterAdr: Bytes)
    requires DistinctKeys(adi.rows) && Laid(kind, before)
    requires forall f :: f in sent ==> LaidAt(kind, sent, f) && Listed(kind, adi.rows, f)
    requires FormatSent(format, told) && LastBody(told) == EncodeAdi(adi) + afterAdi
    requires adrBody == EncodeAdr(AdrWire(unknown, InOrder(kind, adi.rows, sent))) + afterAdr && DecodeAdr(adrBody).Good?
    ensures |DecodeAdr(adrBody).val.values| == |format.params|
    ensures told != [] && told[|told| - 1] == Reply(ADI, EncodeAdi(adi) + afterAdi)
  {
    hide DistinctKeys, Laid, LaidAt, Listed, EncodeAdi, DecodeAdi, EncodeAdr, DecodeAdr, InOrder, StoreAll, Fit, Holds;
    ItemArrives(kind, adi, unknown, sent, before, LastBody(told), adrBody, afterAdi, afterAdr);
  }

  lemma Fetched(kind: Kind, format: ItemFormat, replies: seq<Reply>, adi: AdiWire, unknown: (Byte, Byte),
                sent: map<Field, Bytes32>, before: Value, after: Value, afterAdi: Bytes, afterAdr: Bytes)
    requires DistinctKeys(adi.rows) && Laid(kind, before)
    requires forall f :: f in sent ==> LaidAt(kind, sent, f) && Listed(kind, adi.rows, f)
    requires replies != [] && FormatSent(format, replies[..|replies| - 1])
    requires DecodeAdr(replies[|replies| - 1].body).Good?
    requires var values := DecodeAdr(replies[|replies| - 1].body).val.values;
             && |values| == |format.params|
             && (Fit(kind, Format(format.params), values) ==> after == StoreAll(kind, Format(format.params), values, before))
    ensures var n := |replies|;
            && n >= 2
            && (replies[n - 2] == Reply(ADI, EncodeAdi(adi) + afterAdi)
                && replies[n - 1].body == EncodeAdr(AdrWire(unknown, InOrder(kind, adi.rows, sent))) + afterAdr ==>
                  Holds(after, sent))
  {
    hide DistinctKeys, Laid, LaidAt, Listed, EncodeAdi, DecodeAdi, EncodeAdr, DecodeAdr, InOrder, StoreAll, Fit, Holds;
    var n := |replies|;
    if n >= 2 && replies[n - 2] == Reply(ADI, EncodeAdi(adi) + afterAdi)
       && replies[n - 1].body == EncodeAdr(AdrWire(unknown, InOrder(kind, adi.rows, sent))) + afterAdr {
      ItemArrives(kind, adi, unknown, sent, before, replies[n - 2].body, replies[n - 1].body, afterAdi, afterAdr);
    }
  }

  /** A structure that has every member of an item as the item has it. */
  ghost predicate Holds(v: Value, sent: map<Field, Bytes32>) {
    forall f :: f in sent ==> f in v && v[f] == sent[f]
  }

  lemma SyncedIsOpen(link: Link)
    requires link.Synced()
    ensures link.Open()
  {
  }
}
