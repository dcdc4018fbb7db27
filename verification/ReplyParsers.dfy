/** The parsers that turn a raw reply body into memory: count-driven loops behind an
    advancing cursor, allocating as they go and rolling back when malloc fails. */
module ReplyParsers {
  import opened Wire
  import opened Codecs
  import opened Memory
  import opened Replies

  // ASY

  /** One malloc'ed array of sync ids. */
  datatype IdArray = IdArray(listId: Byte, ids: Count16<U32>, block: Ptr)
  datatype AsyContent = AsyContent(added: IdArray, modified: IdArray, deleted: IdArray)

  function AsyValue(c: AsyContent): AsyWire {
    AsyWire(IdList(c.added.listId, c.added.ids), IdList(c.modified.listId, c.modified.ids),
            IdList(c.deleted.listId, c.deleted.ids))
  }

  function AsyBlocks(c: AsyContent): seq<Ptr> {
    [c.added.block, c.modified.block, c.deleted.block]
  }

  const NO_IDS := IdArray(0, [], Null)

  /** One list: id byte, 16-bit count, that many 32-bit ids into a fresh array. The cursor is
      the part of the body still to be read. */
  method ReadIdList(buf: Bytes, heap: Heap) returns (list: IdArray, cur: Bytes)
    requires GetIdList(buf).Good?
    requires heap.Valid()
    modifies heap
    ensures heap.Valid() && old(heap.retired) <= heap.retired
    ensures heap.calls == old(heap.calls) + 1
    ensures list.block.Null? <==> heap.fails(old(heap.calls))
    ensures heap.live == old(heap.live) + Target(list.block)
    ensures list.block.Block? ==> list.block.id !in old(heap.live)
    ensures list.block.Block? ==> GetIdList(buf) == Good(IdList(list.listId, list.ids), cur)
  {
    var listId, count := buf[0], Get16(buf[1..]);
    cur := buf[3..];
    var block := heap.Malloc();
    if block.Null? {
      return IdArray(listId, [], Null), cur;
    }
    var ids := new U32[count];
    cur := FillIds(cur, ids);
    list := IdArray(listId, ids[..], block);
  }

  method FillIds(buf: Bytes, ids: array<U32>) returns (cur: Bytes)
    requires GetMany(GetId, buf, ids.Length).Good?
    modifies ids
    ensures GetMany(GetId, buf, ids.Length) == Good(ids[..], cur)
  {
    cur := buf;
    ghost var all := GetMany(GetId, buf, ids.Length);
    ghost var left, togo: nat := all, ids.Length;
    for i := 0 to ids.Length
      invariant i + togo == ids.Length && left == GetMany(GetId, cur, togo) && left.Good?
      invariant left.rest == all.rest && left.val == all.val[i..]
      invariant forall k :: 0 <= k < i ==> ids[k] == all.val[k]
    {
      left := NextOfMany(GetId, cur, togo);
      togo := togo - 1;
      assert all.val[i..][0] == all.val[i] && all.val[i..][1..] == all.val[i + 1..];
      ids[i] := Get32(cur);
      cur := cur[4..];
    }
    assert ids[..] == all.val;
  }

  /** Three lists in a row. A failed malloc releases the arrays of the lists before it. */
  method ParseRawAsy(buf: Bytes, heap: Heap) returns (r: int, asy: AsyContent, cur: Bytes)
    requires DecodeAsy(buf).Good?
    requires heap.Valid()
    modifies heap
    ensures heap.Valid() && old(heap.retired) <= heap.retired
    ensures var k := old(heap.calls);
            r == if heap.fails(k) then -1 else if heap.fails(k + 1) then -2 else if heap.fails(k + 2) then -3 else 0
    ensures heap.calls >= old(heap.calls)
    ensures r != 0 ==> heap.live == old(heap.live)
    ensures r == 0 ==> Claims(AsyBlocks(asy), old(heap.live), heap.live)
    ensures r == 0 ==> DecodeAsy(buf) == Good(AsyValue(asy), cur)
  {
    asy := AsyContent(NO_IDS, NO_IDS, NO_IDS);
    var added, modified, deleted;
    added, cur := ReadIdList(buf, heap);
    if added.block.Null? {
      return -1, asy, cur;
    }
    modified, cur := ReadIdList(cur, heap);
    if modified.block.Null? {
      heap.Free(added.block);
      return -2, asy, cur;
    }
    deleted, cur := ReadIdList(cur, heap);
    if deleted.block.Null? {
      heap.Free(added.block);
      heap.Free(modified.block);
      return -3, asy, cur;
    }
    r, asy := 0, AsyContent(added, modified, deleted);
    var blocks := AsyBlocks(asy);
    assert blocks[0] == added.block && blocks[1] == modified.block && blocks[2] == deleted.block;
  }

  // ADI

  /** One row of the item format, with the block that holds its description. */
  datatype AdiParam = AdiParam(abrev: Abrev, typeId: Byte, descLen: U16, desc: Bytes16, block: Ptr)
  datatype AdiContent = AdiContent(numCards: U32, numParams: U16, unknown: Byte, params: seq<AdiParam>, block: Ptr)

  const NO_ABREV := Abrev('\0', '\0', '\0', '\0')
  const NO_PARAM := AdiParam(NO_ABREV, 0, 0, [], Null)

  function Format(params: seq<AdiParam>): (rows: seq<FormatRow>)
    ensures |rows| == |params|
  {
    seq(|params|, i requires 0 <= i < |params| => FormatRow(params[i].abrev, params[i].typeId, params[i].desc))
  }

  function DescBlocks(params: seq<AdiParam>): (ps: seq<Ptr>)
    ensures |ps| == |params|
  {
    seq(|params|, i requires 0 <= i < |params| => params[i].block)
  }

  lemma DescBlocksOf(params: seq<AdiParam>, ps: seq<Ptr>)
    requires |ps| == |params| && forall k :: 0 <= k < |ps| ==> params[k].block == ps[k]
    ensures DescBlocks(params) == ps
  {
  }

  /** Every recorded length is the length of its description. */
  ghost predicate LengthsKept(params: seq<AdiParam>) {
    forall i :: 0 <= i < |params| ==> params[i].descLen == |params[i].desc|
  }

  /** First column: four bytes of abbreviation into each row. */
  method FillAbrevs(buf: Bytes, params: array<AdiParam>) returns (cur: Bytes)
    requires GetMany(TakeAbrev, buf, params.Length).Good?
    modifies params
    ensures var all := GetMany(TakeAbrev, buf, params.Length);
            && (forall k :: 0 <= k < params.Length ==> params[k] == old(params[k]).(abrev := all.val[k]))
            && cur == all.rest
  {
    cur := buf;
    ghost var all := GetMany(TakeAbrev, buf, params.Length);
    ghost var left, togo: nat := all, params.Length;
    for i := 0 to params.Length
      invariant i + togo == params.Length && left == GetMany(TakeAbrev, cur, togo) && left.Good?
      invariant left.rest == all.rest && left.val == all.val[i..]
      invariant forall k :: 0 <= k < i ==> params[k] == old(params[k]).(abrev := all.val[k])
      invariant forall k :: i <= k < params.Length ==> params[k] == old(params[k])
    {
      left := NextOfMany(TakeAbrev, cur, togo);
      togo := togo - 1;
      assert all.val[i..][0] == all.val[i] && all.val[i..][1..] == all.val[i + 1..];
      params[i] := params[i].(abrev := GetAbrev(cur));
      cur := cur[4..];
    }
  }

  /** Second column: one byte of type id into each row. */
  method FillTypes(buf: Bytes, params: array<AdiParam>) returns (cur: Bytes)
    requires GetMany(GetType, buf, params.Length).Good?
    modifies params
    ensures var all := GetMany(GetType, buf, params.Length);
            && (forall k :: 0 <= k < params.Length ==> params[k] == old(params[k]).(typeId := all.val[k]))
            && cur == all.rest
  {
    cur := buf;
    ghost var all := GetMany(GetType, buf, params.Length);
    ghost var left, togo: nat := all, params.Length;
    for i := 0 to params.Length
      invariant i + togo == params.Length && left == GetMany(GetType, cur, togo) && left.Good?
      invariant left.rest == all.rest && left.val == all.val[i..]
      invariant forall k :: 0 <= k < i ==> params[k] == old(params[k]).(typeId := all.val[k])
      invariant forall k :: i <= k < params.Length ==> params[k] == old(params[k])
    {
      left := NextOfMany(GetType, cur, togo);
      togo := togo - 1;
      assert all.val[i..][0] == all.val[i] && all.val[i..][1..] == all.val[i + 1..];
      params[i] := params[i].(typeId := cur[0]);
      cur := cur[1..];
    }
  }

  /** Third column: a length-prefixed description into a fresh block per row, stopping at the
      first malloc that fails. */
  method FillDescs(buf: Bytes, params: array<AdiParam>, heap: Heap) returns (done: nat, cur: Bytes)
    requires GetMany(GetDesc, buf, params.Length).Good?
    requires heap.Valid()
    modifies params, heap
    ensures heap.Valid() && old(heap.retired) <= heap.retired
    ensures done <= params.Length && Granted(heap.fails, old(heap.calls), done)
    ensures heap.calls >= old(heap.calls)
    ensures done < params.Length ==> heap.fails(old(heap.calls) + done)
    ensures Claims(DescBlocks(params[..done]), old(heap.live), heap.live)
    ensures var all := GetMany(GetDesc, buf, params.Length);
            && (forall k :: 0 <= k < done ==>
                  params[k] == old(params[k]).(descLen := |all.val[k]|, desc := all.val[k], block := params[k].block))
            && (done == params.Length ==> cur == all.rest)
  {
    hide *;
    cur, done := buf, 0;
    NothingYet(heap.fails, heap.calls, heap.live);
    ghost var all := GetMany(GetDesc, buf, params.Length);
    ghost var left, togo: nat, blocks := all, params.Length, [];
    while done < params.Length
      invariant done <= params.Length
      invariant heap.Valid() && old(heap.retired) <= heap.retired
      invariant heap.calls == old(heap.calls) + done && Granted(heap.fails, old(heap.calls), done)
      invariant done + togo == params.Length && left == GetMany(GetDesc, cur, togo) && left.Good?
      invariant left.rest == all.rest && left.val == all.val[done..]
      invariant |blocks| == done && Claims(blocks, old(heap.live), heap.live)
      invariant forall k :: 0 <= k < done ==>
                  params[k] == old(params[k]).(descLen := |all.val[k]|, desc := all.val[k], block := blocks[k])
      invariant forall k :: done <= k < params.Length ==> params[k] == old(params[k])
    {
      left := NextOfMany(GetDesc, cur, togo);
      togo := togo - 1;
      assert all.val[done..][0] == all.val[done] && all.val[done..][1..] == all.val[done + 1..];
      var desc, block, next := ReadDesc(cur, heap, blocks, old(heap.live));
      if block.Null? {
        break;
      }
      GrantOneMore(heap.fails, old(heap.calls), done);
      params[done] := params[done].(descLen := |desc|, desc := desc, block := block);
      cur, done, blocks := next, done + 1, blocks + [block];
    }
    if togo == 0 {
      RunDone(GetDesc, cur);
    }
    assert DescBlocks(params[..done]) == blocks by { DescBlocksOf(params[..done], blocks); }
  }

  /** One description: its 16-bit length, a block of that size, the bytes copied into it. */
  method ReadDesc(buf: Bytes, heap: Heap, ghost ps: seq<Ptr>, ghost before: set<nat>)
    returns (desc: Bytes16, block: Ptr, cur: Bytes)
    requires GetDesc(buf).Good? && Claims(ps, before, heap.live)
    requires heap.Valid()
    modifies heap
    ensures heap.Valid() && old(heap.retired) <= heap.retired
    ensures heap.calls == old(heap.calls) + 1
    ensures block.Null? <==> heap.fails(old(heap.calls))
    ensures block.Null? ==> heap.live == old(heap.live)
    ensures block.Block? ==> Claims(ps + [block], before, heap.live) && GetDesc(buf) == Good(desc, cur)
  {
    var len := Get16(buf);
    cur := buf[2..];
    block := NewBlock(heap, ps, before);
    if block.Null? {
      return [], Null, cur;
    }
    desc, cur := cur[..len], cur[len..];
    assert desc == buf[2..2 + len] && cur == buf[2 + len..];
  }

  /** malloc, seen by a loop that has already claimed the blocks `ps` since `before`. */
  method NewBlock(heap: Heap, ghost ps: seq<Ptr>, ghost before: set<nat>) returns (p: Ptr)
    requires Claims(ps, before, heap.live)
    requires heap.Valid()
    modifies heap
    ensures heap.Valid() && old(heap.retired) <= heap.retired
    ensures heap.calls == old(heap.calls) + 1
    ensures p.Null? <==> heap.fails(old(heap.calls))
    ensures p.Null? ==> heap.live == old(heap.live)
    ensures p.Block? ==> Claims(ps + [p], before, heap.live)
  {
    p := heap.Malloc();
    if p.Block? {
      ClaimOne(ps, p, before, old(heap.live), heap.live);
    }
  }

  method ParseRawAdi(buf: Bytes, heap: Heap) returns (r: int, adi: AdiContent, cur: Bytes)
    requires DecodeAdi(buf).Good?
    requires heap.Valid()
    modifies heap
    ensures heap.Valid() && old(heap.retired) <= heap.retired
    ensures var k, n := old(heap.calls), |DecodeAdi(buf).val.rows|;
            r == if heap.fails(k) then -1 else if !Granted(heap.fails, k + 1, n) then -2 else 0
    ensures heap.calls >= old(heap.calls)
    ensures r != 0 ==> heap.live == old(heap.live)
    ensures r == 0 ==> Claims([adi.block] + DescBlocks(adi.params), old(heap.live), heap.live)
    ensures r == 0 ==> AdiHolds(adi, buf) && cur == DecodeAdi(buf).rest
  {
    adi, cur := AdiContent(Get32(buf), Get16(buf[4..]), buf[6], [], Null), buf[7..];
    var block := heap.Malloc();
    if block.Null? {
      return -1, adi, cur;
    }
    ghost var middle := heap.live;
    var params := new AdiParam[adi.numParams](_ => NO_PARAM);
    cur := FillAbrevs(cur, params);
    cur := FillTypes(cur, params);
    var done;
    done, cur := FillDescs(cur, params, heap);
    if done < params.Length {
      heap.FreeEach(DescBlocks(params[..done]), middle);
      heap.Free(block);
      return -2, adi, cur;
    }
    assert params[..done] == params[..];
    r, adi := 0, adi.(params := params[..], block := block);
    ClaimBefore(block, DescBlocks(adi.params), old(heap.live), middle, heap.live);
    assert Format(adi.params) == DecodeAdi(buf).val.rows;
  }

  /** The parsed content is what the body says, with every recorded length right. */
  ghost predicate AdiHolds(adi: AdiContent, buf: Bytes)
    requires DecodeAdi(buf).Good?
  {
    && adi.numParams == |adi.params| && LengthsKept(adi.params)
    && AdiWire(adi.numCards, adi.unknown, Format(adi.params)) == DecodeAdi(buf).val
  }

  lemma ClaimBefore(p: Ptr, ps: seq<Ptr>, before: set<nat>, middle: set<nat>, after: set<nat>)
    requires p.Block? && p.id !in before && middle == before + {p.id}
    requires Claims(ps, middle, after)
    ensures Claims([p] + ps, before, after)
  {
    var qs := [p] + ps;
    assert qs[0] == p && forall i :: 1 <= i < |qs| ==> qs[i] == ps[i - 1];
    forall b | b in after ensures b in before || Block(b) in qs {
      if b in middle && b !in before {
        assert qs[0] == Block(b);
      } else if b !in middle {
        var i :| 0 <= i < |ps| && ps[i] == Block(b);
        assert qs[i + 1] == Block(b);
      }
    }
  }

  // ADR

  /** One value of an item, in its own block. */
  datatype AdrParam = AdrParam(paramLen: U32, data: Bytes32, block: Ptr)
  datatype AdrContent = AdrContent(unknown: (Byte, Byte), numParams: U16, params: seq<AdrParam>, block: Ptr)

  const NO_VALUE := AdrParam(0, [], Null)

  function Values(params: seq<AdrParam>): (vs: seq<Bytes32>)
    ensures |vs| == |params|
  {
    seq(|params|, i requires 0 <= i < |params| => params[i].data)
  }

  function DataBlocks(params: seq<AdrParam>): (ps: seq<Ptr>)
    ensures |ps| == |params|
  {
    seq(|params|, i requires 0 <= i < |params| => params[i].block)
  }

  lemma DataBlocksOf(params: seq<AdrParam>, ps: seq<Ptr>)
    requires |ps| == |params| && forall k :: 0 <= k < |ps| ==> params[k].block == ps[k]
    ensures DataBlocks(params) == ps
  {
  }

  /** The parsed content is what the body says, with every recorded length right. */
  ghost predicate AdrHolds(adr: AdrContent, buf: Bytes)
    requires DecodeAdr(buf).Good?
  {
    && adr.numParams == |adr.params|
    && (forall i :: 0 <= i < |adr.params| ==> adr.params[i].paramLen == |adr.params[i].data|)
    && AdrWire(adr.unknown, Values(adr.params)) == DecodeAdr(buf).val
  }

  /** One value: its 32-bit length, a block of that size, the bytes copied into it. */
  method ReadValue(buf: Bytes, heap: Heap, ghost ps: seq<Ptr>, ghost before: set<nat>)
    returns (data: Bytes32, block: Ptr, cur: Bytes)
    requires GetValue(buf).Good? && Claims(ps, before, heap.live)
    requires heap.Valid()
    modifies heap
    ensures heap.Valid() && old(heap.retired) <= heap.retired
    ensures heap.calls == old(heap.calls) + 1
    ensures block.Null? <==> heap.fails(old(heap.calls))
    ensures block.Null? ==> heap.live == old(heap.live)
    ensures block.Block? ==> Claims(ps + [block], before, heap.live) && GetValue(buf) == Good(data, cur)
  {
    var len := Get32(buf);
    cur := buf[4..];
    block := NewBlock(heap, ps, before);
    if block.Null? {
      return [], Null, cur;
    }
    data, cur := cur[..len], cur[len..];
    assert data == buf[4..4 + len] && cur == buf[4 + len..];
  }

  /** The loop over the values, stopping at the first malloc that fails. */
  method FillValues(buf: Bytes, params: array<AdrParam>, heap: Heap) returns (done: nat, cur: Bytes)
    requires GetMany(GetValue, buf, params.Length).Good?
    requires heap.Valid()
    modifies params, heap
    ensures heap.Valid() && old(heap.retired) <= heap.retired
    ensures done <= params.Length && Granted(heap.fails, old(heap.calls), done)
    ensures heap.calls >= old(heap.calls)
    ensures done < params.Length ==> heap.fails(old(heap.calls) + done)
    ensures Claims(DataBlocks(params[..done]), old(heap.live), heap.live)
    ensures var all := GetMany(GetValue, buf, params.Length);
            && (forall k :: 0 <= k < done ==> params[k] == AdrParam(|all.val[k]|, all.val[k], params[k].block))
            && (done == params.Length ==> cur == all.rest)
  {
    hide *;
    cur, done := buf, 0;
    NothingYet(heap.fails, heap.calls, heap.live);
    ghost var all := GetMany(GetValue, buf, params.Length);
    ghost var left, togo: nat, blocks := all, params.Length, [];
    while done < params.Length
      invariant done <= params.Length
      invariant heap.Valid() && old(heap.retired) <= heap.retired
      invariant heap.calls == old(heap.calls) + done && Granted(heap.fails, old(heap.calls), done)
      invariant done + togo == params.Length && left == GetMany(GetValue, cur, togo) && left.Good?
      invariant left.rest == all.rest && left.val == all.val[done..]
      invariant |blocks| == done && Claims(blocks, old(heap.live), heap.live)
      invariant forall k :: 0 <= k < done ==> params[k] == AdrParam(|all.val[k]|, all.val[k], blocks[k])
    {
      left := NextOfMany(GetValue, cur, togo);
      togo := togo - 1;
      assert all.val[done..][0] == all.val[done] && all.val[done..][1..] == all.val[done + 1..];
      var data, block, next := ReadValue(cur, heap, blocks, old(heap.live));
      if block.Null? {
        break;
      }
      GrantOneMore(heap.fails, old(heap.calls), done);
      params[done] := AdrParam(|data|, data, block);
      cur, done, blocks := next, done + 1, blocks + [block];
    }
    if togo == 0 {
      RunDone(GetValue, cur);
    }
    assert DataBlocks(params[..done]) == blocks by { DataBlocksOf(params[..done], blocks); }
  }

  method ParseRawAdr(buf: Bytes, heap: Heap) returns (r: int, adr: AdrContent, cur: Bytes)
    requires DecodeAdr(buf).Good?
    requires heap.Valid()
    modifies heap
    ensures heap.Valid() && old(heap.retired) <= heap.retired
    ensures var k, n := old(heap.calls), |DecodeAdr(buf).val.values|;
            r == if heap.fails(k) then -1 else if !Granted(heap.fails, k + 1, n) then -2 else 0
    ensures heap.calls >= old(heap.calls)
    ensures r != 0 ==> heap.live == old(heap.live)
    ensures r == 0 ==> Claims([adr.block] + DataBlocks(adr.params), old(heap.live), heap.live)
    ensures r == 0 ==> AdrHolds(adr, buf) && cur == DecodeAdr(buf).rest
  {
    adr, cur := AdrContent((buf[0], buf[1]), Get16(buf[2..]), [], Null), buf[4..];
    var block := heap.Malloc();
    if block.Null? {
      return -1, adr, cur;
    }
    ghost var middle := heap.live;
    var params := new AdrParam[adr.numParams](_ => NO_VALUE);
    var done;
    done, cur := FillValues(cur, params, heap);
    if done < params.Length {
      heap.FreeEach(DataBlocks(params[..done]), middle);
      heap.Free(block);
      return -2, adr, cur;
    }
    assert params[..done] == params[..];
    r, adr := 0, adr.(params := params[..], block := block);
    ClaimBefore(block, DataBlocks(adr.params), old(heap.live), middle, heap.live);
    assert Values(adr.params) == DecodeAdr(buf).val.values;
  }

  // AIG

  datatype AigContent = AigContent(info: AigWire, modelBlock: Ptr)

  /** Device information; the model string gets a block of its own. */
  method ParseRawAig(buf: Bytes, heap: Heap) returns (r: int, aig: AigContent)
    requires DecodeAig(buf).Good?
    requires heap.Valid()
    modifies heap
    ensures heap.Valid() && old(heap.retired) <= heap.retired
    ensures heap.calls == old(heap.calls) + 1
    ensures r == if heap.fails(old(heap.calls)) then -1 else 0
    ensures r != 0 ==> heap.live == old(heap.live)
    ensures r == 0 ==> aig.info == DecodeAig(buf).val && Claims([aig.modelBlock], old(heap.live), heap.live)
  {
    var len := Get16(buf);
    var block := heap.Malloc();
    if block.Null? {
      return -1, AigContent(AigWire([], [], (0, 0), 0), Null);
    }
    var cur := buf[2 + len..];
    aig := AigContent(AigWire(buf[2..2 + len], cur[..5] + cur[8..AIG_TAIL], (cur[5], cur[6]), cur[7]), block);
    r := 0;
  }
}
