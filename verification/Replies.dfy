/** What the device's structured replies say, independent of memory: the wire layout of
    AIG, ASY, ADI and ADR bodies as an encoder and a decoder that are exact inverses. */
module Replies {
  import opened Wire
  import opened Codecs

  type Bytes16 = s: Bytes | |s| < 0x1_0000
  type Bytes32 = s: Bytes | |s| < 0x1_0000_0000
  type Count16<T> = s: seq<T> | |s| < 0x1_0000

  // Element layouts.

  function PutId(n: U32): Bytes { Put32(n) }

  function GetId(b: Bytes): Parse<U32> {
    if |b| < 4 then Bad else Good(Get32(b), b[4..])
  }

  function PutAbrev(a: Abrev): Bytes { AbrevBytes(a) }

  function TakeAbrev(b: Bytes): Parse<Abrev> {
    if |b| < 4 then Bad else Good(GetAbrev(b), b[4..])
  }

  function PutType(t: Byte): Bytes { [t] }

  function GetType(b: Bytes): Parse<Byte> {
    if |b| < 1 then Bad else Good(b[0], b[1..])
  }

  function PutDesc(d: Bytes16): Bytes { Put16(|d|) + d }

  function GetDesc(b: Bytes): Parse<Bytes16> {
    if |b| < 2 || |b| < 2 + Get16(b) then Bad
    else Good(b[2..2 + Get16(b)], b[2 + Get16(b)..])
  }

  function PutValue(d: Bytes32): Bytes { Put32(|d|) + d }

  function GetValue(b: Bytes): Parse<Bytes32> {
    if |b| < 4 || |b| < 4 + Get32(b) then Bad
    else Good(b[4..4 + Get32(b)], b[4 + Get32(b)..])
  }

  lemma IdInverse()
    ensures Inverse(PutId, GetId)
  {
    forall x: U32, rest: Bytes ensures GetId(PutId(x) + rest) == Good(x, rest) {
      GetFromFront(Put32(x), rest);
    }
    forall b: Bytes | GetId(b).Good? ensures b == PutId(GetId(b).val) + GetId(b).rest {
      Put32Get32(b);
    }
  }

  lemma AbrevInverse()
    ensures Inverse(PutAbrev, TakeAbrev)
  {
  }

  lemma TypeInverse()
    ensures Inverse(PutType, GetType)
  {
  }

  lemma DescInverse()
    ensures Inverse(PutDesc, GetDesc)
  {
    forall d: Bytes16, rest: Bytes ensures GetDesc(PutDesc(d) + rest) == Good(d, rest) {
      assert PutDesc(d) + rest == Put16(|d|) + (d + rest);
      GetFromFront(Put16(|d|), d + rest);
      assert (PutDesc(d) + rest)[2..2 + |d|] == d && (PutDesc(d) + rest)[2 + |d|..] == rest;
    }
    forall b: Bytes | GetDesc(b).Good? ensures b == PutDesc(GetDesc(b).val) + GetDesc(b).rest {
      Put16Get16(b);
    }
  }

  lemma ValueInverse()
    ensures Inverse(PutValue, GetValue)
  {
    forall d: Bytes32, rest: Bytes ensures GetValue(PutValue(d) + rest) == Good(d, rest) {
      assert PutValue(d) + rest == Put32(|d|) + (d + rest);
      GetFromFront(Put32(|d|), d + rest);
      assert (PutValue(d) + rest)[4..4 + |d|] == d && (PutValue(d) + rest)[4 + |d|..] == rest;
    }
    forall b: Bytes | GetValue(b).Good? ensures b == PutValue(GetValue(b).val) + GetValue(b).rest {
      Put32Get32(b);
    }
  }

  // ASY: three counted lists of sync ids.

  datatype IdList = IdList(listId: Byte, ids: Count16<U32>)
  datatype AsyWire = AsyWire(added: IdList, modified: IdList, deleted: IdList)

  function PutIdList(l: IdList): Bytes {
    [l.listId] + Put16(|l.ids|) + PutAll(PutId, l.ids)
  }

  function GetIdList(b: Bytes): Parse<IdList> {
    if |b| < 3 then Bad
    else
      var ids := GetMany(GetId, b[3..], Get16(b[1..]));
      if ids.Bad? then Bad else Good(IdList(b[0], ids.val), ids.rest)
  }

  function EncodeAsy(a: AsyWire): Bytes {
    PutIdList(a.added) + PutIdList(a.modified) + PutIdList(a.deleted)
  }

  function DecodeAsy(b: Bytes): Parse<AsyWire> {
    var added := GetIdList(b);
    if added.Bad? then Bad
    else
      var modified := GetIdList(added.rest);
      if modified.Bad? then Bad
      else
        var deleted := GetIdList(modified.rest);
        if deleted.Bad? then Bad
        else Good(AsyWire(added.val, modified.val, deleted.val), deleted.rest)
  }

  lemma IdListInverse()
    ensures Inverse(PutIdList, GetIdList)
  {
    forall l: IdList, rest: Bytes ensures GetIdList(PutIdList(l) + rest) == Good(l, rest) {
      var b := PutIdList(l) + rest;
      var tail := PutAll(PutId, l.ids) + rest;
      assert b == [l.listId] + (Put16(|l.ids|) + tail);
      assert b[1..] == Put16(|l.ids|) + tail && b[3..] == tail;
      GetFromFront(Put16(|l.ids|), tail);
      assert GetMany(GetId, tail, |l.ids|) == Good(l.ids, rest) by {
        IdInverse();
        GetManyAfterPut(PutId, GetId, l.ids, rest);
      }
    }
    forall b: Bytes | GetIdList(b).Good? ensures b == PutIdList(GetIdList(b).val) + GetIdList(b).rest {
      Put16Get16(b[1..]);
      var ids := GetMany(GetId, b[3..], Get16(b[1..]));
      assert b[3..] == PutAll(PutId, ids.val) + ids.rest by {
        IdInverse();
        PutAfterGetMany(PutId, GetId, b[3..], Get16(b[1..]));
      }
      assert b == [b[0]] + b[1..][..2] + b[3..];
    }
  }

  lemma IdListRoundTrip(l: IdList, rest: Bytes)
    ensures GetIdList(PutIdList(l) + rest) == Good(l, rest)
  {
    IdListInverse();
  }

  lemma IdListLayout(b: Bytes)
    requires GetIdList(b).Good?
    ensures b == PutIdList(GetIdList(b).val) + GetIdList(b).rest
  {
    IdListInverse();
  }

  lemma DecodeEncodeAsy(a: AsyWire, rest: Bytes)
    ensures DecodeAsy(EncodeAsy(a) + rest) == Good(a, rest)
  {
    var r3 := PutIdList(a.deleted) + rest;
    var r2 := PutIdList(a.modified) + r3;
    assert EncodeAsy(a) + rest == PutIdList(a.added) + r2;
    IdListRoundTrip(a.added, r2);
    IdListRoundTrip(a.modified, r3);
    IdListRoundTrip(a.deleted, rest);
  }

  lemma EncodeDecodeAsy(b: Bytes)
    requires DecodeAsy(b).Good?
    ensures b == EncodeAsy(DecodeAsy(b).val) + DecodeAsy(b).rest
  {
    var added := GetIdList(b);
    var modified := GetIdList(added.rest);
    IdListLayout(b);
    IdListLayout(added.rest);
    IdListLayout(modified.rest);
    var d := DecodeAsy(b);
    Regroup3(PutIdList(d.val.added), PutIdList(d.val.modified), PutIdList(d.val.deleted), d.rest);
  }

  lemma Regroup3(x: Bytes, y: Bytes, z: Bytes, rest: Bytes)
    ensures x + (y + (z + rest)) == x + y + z + rest
  {
  }

  // ADI: the item format, column by column on the wire, row by row in memory.

  datatype FormatRow = FormatRow(abrev: Abrev, typeId: Byte, desc: Bytes16)
  datatype AdiWire = AdiWire(numCards: U32, unknown: Byte, rows: Count16<FormatRow>)

  function Abrevs(rows: seq<FormatRow>): (c: seq<Abrev>)
    ensures |c| == |rows|
  {
    seq(|rows|, i requires 0 <= i < |rows| => rows[i].abrev)
  }

  function Types(rows: seq<FormatRow>): (c: seq<Byte>)
    ensures |c| == |rows|
  {
    seq(|rows|, i requires 0 <= i < |rows| => rows[i].typeId)
  }

  function Descs(rows: seq<FormatRow>): (c: seq<Bytes16>)
    ensures |c| == |rows|
  {
    seq(|rows|, i requires 0 <= i < |rows| => rows[i].desc)
  }

  function Rows(abrevs: seq<Abrev>, types: seq<Byte>, descs: seq<Bytes16>): (rows: seq<FormatRow>)
    requires |abrevs| == |types| == |descs|
    ensures |rows| == |abrevs|
    ensures Abrevs(rows) == abrevs && Types(rows) == types && Descs(rows) == descs
  {
    seq(|abrevs|, i requires 0 <= i < |abrevs| => FormatRow(abrevs[i], types[i], descs[i]))
  }

  /** All abbreviations, then all type ids, then all descriptions. */
  function PutColumns(rows: seq<FormatRow>): Bytes {
    PutAll(PutAbrev, Abrevs(rows)) + PutAll(PutType, Types(rows)) + PutAll(PutDesc, Descs(rows))
  }

  function GetColumns(b: Bytes, n: nat): (p: Parse<seq<FormatRow>>)
    ensures p.Good? ==> |p.val| == n
  {
    var abrevs := GetMany(TakeAbrev, b, n);
    if abrevs.Bad? then Bad
    else
      var types := GetMany(GetType, abrevs.rest, n);
      if types.Bad? then Bad
      else
        var descs := GetMany(GetDesc, types.rest, n);
        if descs.Bad? then Bad
        else Good(Rows(abrevs.val, types.val, descs.val), descs.rest)
  }

  function EncodeAdi(a: AdiWire): Bytes {
    Put32(a.numCards) + Put16(|a.rows|) + [a.unknown] + PutColumns(a.rows)
  }

  function DecodeAdi(b: Bytes): Parse<AdiWire> {
    if |b| < 7 then Bad
    else
      var rows := GetColumns(b[7..], Get16(b[4..]));
      if rows.Bad? then Bad else Good(AdiWire(Get32(b), b[6], rows.val), rows.rest)
  }

  lemma GetColumnsAfterPut(rows: seq<FormatRow>, rest: Bytes)
    ensures GetColumns(PutColumns(rows) + rest, |rows|) == Good(rows, rest)
  {
    var x, y, z := PutAll(PutAbrev, Abrevs(rows)), PutAll(PutType, Types(rows)), PutAll(PutDesc, Descs(rows));
    Regroup3(x, y, z, rest);
    assert GetMany(TakeAbrev, x + (y + (z + rest)), |rows|) == Good(Abrevs(rows), y + (z + rest)) by {
      AbrevInverse();
      GetManyAfterPut(PutAbrev, TakeAbrev, Abrevs(rows), y + (z + rest));
    }
    assert GetMany(GetType, y + (z + rest), |rows|) == Good(Types(rows), z + rest) by {
      TypeInverse();
      GetManyAfterPut(PutType, GetType, Types(rows), z + rest);
    }
    assert GetMany(GetDesc, z + rest, |rows|) == Good(Descs(rows), rest) by {
      DescInverse();
      GetManyAfterPut(PutDesc, GetDesc, Descs(rows), rest);
    }
    assert Rows(Abrevs(rows), Types(rows), Descs(rows)) == rows;
  }

  lemma PutColumnsAfterGet(b: Bytes, n: nat)
    requires GetColumns(b, n).Good?
    ensures b == PutColumns(GetColumns(b, n).val) + GetColumns(b, n).rest
  {
    var abrevs := GetMany(TakeAbrev, b, n);
    var types := GetMany(GetType, abrevs.rest, n);
    var descs := GetMany(GetDesc, types.rest, n);
    assert b == PutAll(PutAbrev, abrevs.val) + abrevs.rest by {
      AbrevInverse();
      PutAfterGetMany(PutAbrev, TakeAbrev, b, n);
    }
    assert abrevs.rest == PutAll(PutType, types.val) + types.rest by {
      TypeInverse();
      PutAfterGetMany(PutType, GetType, abrevs.rest, n);
    }
    assert types.rest == PutAll(PutDesc, descs.val) + descs.rest by {
      DescInverse();
      PutAfterGetMany(PutDesc, GetDesc, types.rest, n);
    }
    Regroup3(PutAll(PutAbrev, abrevs.val), PutAll(PutType, types.val), PutAll(PutDesc, descs.val), descs.rest);
  }

  lemma FixedHead(b: Bytes)
    requires |b| >= 7
    ensures b == Put32(Get32(b)) + Put16(Get16(b[4..])) + [b[6]] + b[7..]
  {
    Put32Get32(b);
    Put16Get16(b[4..]);
    assert b == b[..4] + b[4..][..2] + [b[6]] + b[7..];
  }

  lemma ReadFixedHead(cards: U32, n: U16, unknown: Byte, tail: Bytes)
    ensures var b := Put32(cards) + Put16(n) + [unknown] + tail;
            Get32(b) == cards && Get16(b[4..]) == n && b[6] == unknown && b[7..] == tail
  {
    var b := Put32(cards) + Put16(n) + [unknown] + tail;
    assert b == Put32(cards) + (Put16(n) + ([unknown] + tail));
    assert b[4..] == Put16(n) + ([unknown] + tail);
    GetFromFront(Put32(cards), Put16(n) + ([unknown] + tail));
    GetFromFront(Put16(n), [unknown] + tail);
  }

  lemma DecodeEncodeAdi(a: AdiWire, rest: Bytes)
    ensures DecodeAdi(EncodeAdi(a) + rest) == Good(a, rest)
  {
    var head := Put32(a.numCards) + Put16(|a.rows|) + [a.unknown];
    assert EncodeAdi(a) + rest == head + (PutColumns(a.rows) + rest);
    ReadFixedHead(a.numCards, |a.rows|, a.unknown, PutColumns(a.rows) + rest);
    GetColumnsAfterPut(a.rows, rest);
  }

  lemma EncodeDecodeAdi(b: Bytes)
    requires DecodeAdi(b).Good?
    ensures b == EncodeAdi(DecodeAdi(b).val) + DecodeAdi(b).rest
  {
    FixedHead(b);
    PutColumnsAfterGet(b[7..], Get16(b[4..]));
  }

  // ADR: the values of one item, each behind a 32-bit length.

  datatype AdrWire = AdrWire(unknown: (Byte, Byte), values: Count16<Bytes32>)

  function EncodeAdr(a: AdrWire): Bytes {
    [a.unknown.0, a.unknown.1] + Put16(|a.values|) + PutAll(PutValue, a.values)
  }

  function DecodeAdr(b: Bytes): Parse<AdrWire> {
    if |b| < 4 then Bad
    else
      var values := GetMany(GetValue, b[4..], Get16(b[2..]));
      if values.Bad? then Bad else Good(AdrWire((b[0], b[1]), values.val), values.rest)
  }

  lemma DecodeEncodeAdr(a: AdrWire, rest: Bytes)
    ensures DecodeAdr(EncodeAdr(a) + rest) == Good(a, rest)
  {
    var b := EncodeAdr(a) + rest;
    var tail := PutAll(PutValue, a.values) + rest;
    assert b == [a.unknown.0, a.unknown.1] + (Put16(|a.values|) + tail);
    assert b[2..] == Put16(|a.values|) + tail && b[4..] == tail;
    GetFromFront(Put16(|a.values|), tail);
    assert GetMany(GetValue, tail, |a.values|) == Good(a.values, rest) by {
      ValueInverse();
      GetManyAfterPut(PutValue, GetValue, a.values, rest);
    }
  }

  lemma EncodeDecodeAdr(b: Bytes)
    requires DecodeAdr(b).Good?
    ensures b == EncodeAdr(DecodeAdr(b).val) + DecodeAdr(b).rest
  {
    Put16Get16(b[2..]);
    var values := GetMany(GetValue, b[4..], Get16(b[2..]));
    assert b[4..] == PutAll(PutValue, values.val) + values.rest by {
      ValueInverse();
      PutAfterGetMany(PutValue, GetValue, b[4..], Get16(b[2..]));
    }
    assert b == b[..2] + b[2..][..2] + b[4..];
  }

  // AIG: device information.

  datatype AigWire = AigWire(model: Bytes16, gap: Bytes, language: (Byte, Byte), authState: Byte)

  /** The bytes behind the model string: five unknown, two of language, one of
      authentication state and six more unknown. */
  const AIG_TAIL := 14

  function DecodeAig(b: Bytes): Parse<AigWire> {
    var model := GetDesc(b);
    if model.Bad? || |model.rest| < AIG_TAIL then Bad
    else
      var t := model.rest;
      Good(AigWire(model.val, t[..5] + t[8..AIG_TAIL], (t[5], t[6]), t[7]), t[AIG_TAIL..])
  }

  function EncodeAig(a: AigWire): Bytes
    requires |a.gap| == 11
  {
    PutDesc(a.model) + a.gap[..5] + [a.language.0, a.language.1, a.authState] + a.gap[5..]
  }

  lemma DecodeEncodeAig(a: AigWire, rest: Bytes)
    requires |a.gap| == 11
    ensures DecodeAig(EncodeAig(a) + rest) == Good(a, rest)
  {
    DescInverse();
    var tail := a.gap[..5] + [a.language.0, a.language.1, a.authState] + a.gap[5..] + rest;
    assert EncodeAig(a) + rest == PutDesc(a.model) + tail;
    assert tail[..5] + tail[8..AIG_TAIL] == a.gap;
  }

  lemma EncodeDecodeAig(b: Bytes)
    requires DecodeAig(b).Good?
    ensures |DecodeAig(b).val.gap| == 11
    ensures b == EncodeAig(DecodeAig(b).val) + DecodeAig(b).rest
  {
    DescInverse();
    var t := GetDesc(b).rest;
    var g := DecodeAig(b).val.gap;
    assert g[..5] == t[..5] && g[5..] == t[8..AIG_TAIL];
  }
}
