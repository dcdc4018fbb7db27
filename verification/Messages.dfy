/** The message structure both directions share: preparing a request for the wire, parsing a
    received body, and releasing what a message owns. */
module Messages {
  import opened Wire
  import opened Memory
  import opened Replies
  import opened ReplyParsers
  import opened Requests
  import opened Frames
  import Writers

  const RET_NNULL_RAW := -7
  const RET_MEM_CONTENT := -9
  const RET_MALLOC_FAIL := -13
  const RET_PARSE_RAW_FAIL := -14
  const MSG_TYPE_SIZE := 3

  /** The typed content of a message; Blank is what a zeroed message holds. */
  datatype Content =
    | Blank
    | Sent(request: Request)
    | AayContent(unknown: Bytes)
    | AigReply(aig: AigContent)
    | AmgContent(fullsyncFlags: Byte)
    | AtgContent(stamp: Bytes)
    | AngContent(code: Byte)
    | AdiReply(adi: AdiContent)
    | AsyReply(asy: AsyContent)
    | AdrReply(adr: AdrContent)
    | AdwContent(numSyncIds: U16, syncId: U32)

  const NO_TAG := Tag('\0', '\0', '\0')
  const NO_HEADER: Bytes := [0, 0, 0, 0, 0, 0, 0, 0, 0, 0, 0, 0, 0]

  /** The request types that can be prepared, each with the content it needs. */
  predicate Matches(tag: Tag, q: Request) {
    match q
    case Bare => tag in [RAY, RIG, RTG]
    case Rrl(_, _, _) => tag == RRL
    case Rmg(_, _) => tag == RMG
    case Rms(_, _) => tag == RMS
    case Rts(_) => tag == RTS
    case Rdi(_, _) => tag == RDI
    case Rsy(_, _) => tag == RSY
    case Rss(_, _, _) => tag == RSS
    case Rdr(_, _, _) => tag == RDR
    case Rdd(_, _, _) => tag == RDD
    case Rdw(_, _, _, _, _) => tag == RDW
    case Rds(_, _, _) => tag == RDS
    case Rqt(_) => tag == RQT
    case Rlr(_) => tag == RLR
    case Rge(_, _) => tag == RGE
  }

  predicate RequestTag(tag: Tag) {
    tag in [RAY, RIG, RRL, RMG, RMS, RTG, RTS, RDI, RSY, RSS, RDR, RDW, RDD, RDS, RQT, RLR, RGE]
  }

  /** An RDW variation that carries an item of a kind that cannot be written. */
  predicate NoWriter(q: Request) {
    q.Rdw? && (q.variation.One? || q.variation.Three?) && q.rdwSync != SYNC_TYPE_TODO
  }

  /** The 16-bit content size a request is given: its announced length, wrapped. */
  function ContSize(q: Request): U16 {
    RequestLength(q) % 0x1_0000
  }

  /** Type and content fit the 16-bit body size, and the writer stays inside the block that is
      allocated for it. */
  predicate Sendable(q: Request) {
    && Shaped(q)
    && MSG_TYPE_SIZE + ContSize(q) < 0x1_0000
    && |RequestBytes(q)| <= ContSize(q)
  }

  lemma SendableFacts(q: Request)
    requires Sendable(q)
    ensures Shaped(q) && MSG_TYPE_SIZE + ContSize(q) < 0x1_0000 && |RequestBytes(q)| <= ContSize(q)
    ensures (MSG_TYPE_SIZE + RequestLength(q)) % 0x1_0000 == MSG_TYPE_SIZE + ContSize(q)
    ensures q.Rms? ==> ContSize(q) == 2 + RMS_LOG_SIZE
  {
    hide RequestBytes, Shaped, TodoLength, RdwLength;
  }

  /** Every request but the oversized ones and the todo records the writer would overrun. */
  lemma SendableExactly(q: Request)
    requires Shaped(q)
    ensures Sendable(q) <==>
              match q
              case Rge(n, _) => n <= 65530
              case Rdw(sync, _, _, v, t) =>
                if v.Two? then true
                else if v.Unknown? || sync != SYNC_TYPE_TODO then true
                else
                  var size := RdwLength(q) % 0x1_0000;
                  size + 3 < 0x1_0000 && RdwLength(q) - t.descriptionLen - t.notesLen + 8 <= size
              case _ => true
  {
  }

  lemma SumOfNone(b: Bytes)
    ensures ByteSum(b[..0]) == 0
  {
  }

  lemma SumOfOneMore(b: Bytes, k: nat)
    requires k < |b|
    ensures ByteSum(b[..k + 1]) == ByteSum(b[..k]) + b[k]
  {
    assert b[..k + 1][..k] == b[..k];
  }

  class Msg {
    var header: Bytes
    var tag: Tag
    var raw: Ptr
    var rawBytes: Bytes
    var cont: Content
    var bodySize: U16
    var checkSum: U16
    var contSize: U16

    /** memset(msg, 0, sizeof(zdtm_msg)). */
    constructor ()
      ensures header == NO_HEADER && tag == NO_TAG && raw == Null && rawBytes == [] && cont == Blank
      ensures bodySize == checkSum == contSize == 0
    {
      header, tag, raw, rawBytes, cont := NO_HEADER, NO_TAG, Null, [], Blank;
      bodySize, checkSum, contSize := 0, 0, 0;
    }

    /** A request: zeroed, then type and content set. */
    constructor Request(tag: Tag, q: Requests.Request)
      ensures this.tag == tag && cont == Sent(q) && raw == Null
    {
      header, this.tag, raw, rawBytes, cont := NO_HEADER, tag, Null, [], Sent(q);
      bodySize, checkSum, contSize := 0, 0, 0;
    }

    /** As memset leaves it, where receiving is concerned. */
    ghost predicate Zeroed()
      reads this
    {
      raw == Null && cont == Blank
    }

    /** The password block a message of type RRL owns besides its raw content. */
    function PwBlock(): Ptr
      reads this
    {
      if tag == RRL && cont.Sent? && cont.request.Rrl? then cont.request.pwBlock else Null
    }

    /** What cleaning the message will free is live, and not the same block twice. */
    ghost predicate Owned(heap: Heap)
      reads this, heap
    {
      && (raw.Block? ==> raw.id in heap.live)
      && (PwBlock().Block? ==> PwBlock().id in heap.live && PwBlock() != raw)
    }

    /** Free the raw content, and the password of an RRL message; afterwards neither pointer is set. */
    method Clean(heap: Heap)
      requires Owned(heap)
      requires heap.Valid()
      modifies this`raw, this`cont, heap`live, heap`retired
      ensures heap.Valid() && old(heap.retired) <= heap.retired
      ensures heap.live == old(heap.live) - Target(old(raw)) - Target(old(PwBlock()))
      ensures heap.retired == old(heap.retired) + Target(old(raw)) + Target(old(PwBlock()))
      ensures raw == Null && PwBlock() == Null
      ensures old(PwBlock()).Null? ==> cont == old(cont)
    {
      if raw.Block? {
        heap.Free(raw);
        raw := Null;
      }
      if tag == RRL && cont.Sent? && cont.request.Rrl? && cont.request.pwBlock.Block? {
        heap.Free(cont.request.pwBlock);
        cont := cont.(request := cont.request.(pwBlock := Null));
      }
    }

    /** Add up type and content bytes in a 16-bit accumulator. */
    method Checksum() returns (sum: U16)
      requires contSize <= |rawBytes|
      ensures sum == CheckSum(tag, rawBytes[..contSize])
    {
      hide ByteSum;
      ghost var body := TagBytes(tag) + rawBytes[..contSize];
      SumOfNone(body);
      sum := 0;
      var n := 0;
      while n < MSG_TYPE_SIZE
        invariant 0 <= n <= MSG_TYPE_SIZE && sum == ByteSum(body[..n]) % 0x1_0000
      {
        SumOfOneMore(body, n);
        sum := (sum as int + TagBytes(tag)[n] as int) % 0x1_0000;
        n := n + 1;
      }
      n := contSize;
      while n > 0
        invariant 0 <= n <= contSize && sum == ByteSum(body[..3 + contSize - n]) % 0x1_0000
      {
        ghost var k := 3 + contSize - n;
        SumOfOneMore(body, k);
        assert body[k] == rawBytes[contSize - n];
        sum := (sum as int + rawBytes[contSize - n] as int) % 0x1_0000;
        n := n - 1;
      }
      assert body[..3 + contSize] == body;
    }

    /** Size the body, set the header, allocate and fill the raw content, compute the checksum. */
    method Prepare(heap: Heap) returns (r: int)
      requires RequestTag(tag) ==> cont.Sent? && Matches(tag, cont.request) && Sendable(cont.request)
      requires heap.Valid()
      modifies this, heap
      ensures heap.Valid() && old(heap.retired) <= heap.retired
      ensures tag == old(tag) && cont == old(cont) && heap.calls >= old(heap.calls)
      ensures r == -1 ==> raw == Null
      ensures r in {0, -1, RET_UNK_TYPE, RET_NNULL_RAW}
      ensures r == RET_UNK_TYPE <==>
                !RequestTag(tag) || (old(raw).Null? && !heap.fails(old(heap.calls)) && NoWriter(cont.request))
      ensures r == RET_NNULL_RAW <==> RequestTag(tag) && old(raw).Block?
      ensures r == -1 <==> RequestTag(tag) && old(raw).Null? && heap.fails(old(heap.calls))
      ensures r == 0 ==> RequestTag(tag) && raw.Block? && contSize == ContSize(cont.request)
      ensures r == 0 ==> bodySize == 3 + contSize && header == DesktopHeader(contSize)
      ensures r == 0 ==> |rawBytes| == contSize
                         && rawBytes[..|RequestBytes(cont.request)|] == RequestBytes(cont.request)
      ensures r == 0 ==> checkSum == CheckSum(tag, rawBytes)
      ensures old(raw).Null? ==>
                heap.live == old(heap.live) + Target(raw) && (raw.Block? ==> raw.id !in old(heap.live))
      ensures old(raw).Block? ==> raw == old(raw) && heap.live == old(heap.live)
    {
      hide RequestTag, Matches, Sendable, ContSize, RequestLength, RequestBytes, Shaped, CheckSum;
      bodySize := MSG_TYPE_SIZE;
      if !RequestTag(tag) {
        return RET_UNK_TYPE;
      }
      var q := cont.request;
      SendableFacts(q);
      bodySize := (MSG_TYPE_SIZE + RequestLength(q)) % 0x1_0000;
      contSize := (bodySize - MSG_TYPE_SIZE) % 0x1_0000;
      header := DesktopHeader(contSize);
      if raw.Block? {
        return RET_NNULL_RAW;
      }
      raw := heap.Malloc();
      if raw.Null? {
        return -1;
      }
      var block := new Byte[contSize];
      var ok := Writers.WriteRequest(block, q);
      rawBytes := block[..];
      assert q.Rdw? ==> (ok <==> !NoWriter(q));
      if q.Rdw? && !ok {
        return RET_UNK_TYPE;
      }
      checkSum := Checksum();
      assert rawBytes[..contSize] == rawBytes;
      r := 0;
    }

    /** Dispatch a received body to the parser for its type. */
    method ParseRaw(heap: Heap) returns (r: int)
      requires BodyFits(tag, rawBytes)
      requires heap.Valid()
      modifies this`cont, heap
      ensures heap.Valid() && old(heap.retired) <= heap.retired
      ensures r == -255 <==> !DeviceTag(tag)
      ensures r != 0 ==> heap.live == old(heap.live) && cont == old(cont)
      ensures old(heap.live) <= heap.live
      ensures r == 0 ==> Parsed(tag, rawBytes, cont) && Claims(Holdings(tag, cont), old(heap.live), heap.live)
      ensures heap.calls >= old(heap.calls)
      ensures NoFailureFrom(heap.fails, old(heap.calls)) ==> r == 0 || r == -255
    {
      if tag == AAY {
        cont := AayContent(rawBytes[..3]);
      } else if tag == AIG {
        var e, aig := ParseRawAig(rawBytes, heap);
        if e != 0 { return -2; }
        cont := AigReply(aig);
      } else if tag == AMG {
        cont := AmgContent(rawBytes[2]);
      } else if tag == ATG {
        cont := AtgContent(rawBytes[..14]);
      } else if tag == AEX {
        // No content, nothing to parse.
      } else if tag == ANG {
        cont := AngContent(rawBytes[0]);
      } else if tag == ADI {
        var e, adi, _ := ParseRawAdi(rawBytes, heap);
        if e != 0 { return -7; }
        cont := AdiReply(adi);
      } else if tag == ASY {
        var e, asy, _ := ParseRawAsy(rawBytes, heap);
        if e != 0 { return -8; }
        cont := AsyReply(asy);
      } else if tag == ADR {
        var e, adr, _ := ParseRawAdr(rawBytes, heap);
        if e != 0 { return -9; }
        cont := AdrReply(adr);
      } else if tag == ADW {
        cont := AdwContent(Get16(rawBytes[4..]), Get32(rawBytes[6..]));
      } else {
        return -255;
      }
      r := 0;
    }
  }

  /** The blocks the parsed content of a message of type `tag` owns. */
  function Holdings(tag: Tag, c: Content): seq<Ptr> {
    if tag == AIG && c.AigReply? then [c.aig.modelBlock]
    else if tag == ADI && c.AdiReply? then [c.adi.block] + DescBlocks(c.adi.params)
    else if tag == ASY && c.AsyReply? then AsyBlocks(c.asy)
    else if tag == ADR && c.AdrReply? then [c.adr.block] + DataBlocks(c.adr.params)
    else []
  }

  /** The typed content says what the raw bytes of a body say. */
  ghost predicate Parsed(tag: Tag, b: Bytes, c: Content)
    requires BodyFits(tag, b)
  {
    if tag == AAY then c == AayContent(b[..3])
    else if tag == AIG then c.AigReply? && c.aig.info == DecodeAig(b).val
    else if tag == AMG then c == AmgContent(b[2])
    else if tag == ATG then c == AtgContent(b[..14])
    else if tag == ANG then c == AngContent(b[0])
    else if tag == ADI then c.AdiReply? && AdiHolds(c.adi, b)
    else if tag == ASY then c.AsyReply? && AsyValue(c.asy) == DecodeAsy(b).val
    else if tag == ADR then c.AdrReply? && AdrHolds(c.adr, b)
    else if tag == ADW then c == AdwContent(Get16(b[4..]), Get32(b[6..]))
    else true
  }

  /** A body of a type that is parsed, and typed content that says the same. */
  ghost predicate Says(tag: Tag, body: Bytes, c: Content) {
    DeviceTag(tag) && BodyFits(tag, body) && Parsed(tag, body, c)
  }
}
