/** Decoding an item: the format rows of an ADI reply zipped with the values of an ADR reply, each
    value stored in the member its row designates. */
module Items {
  import opened Wire
  import opened Memory
  import opened Replies
  import opened ReplyParsers
  import opened ItemFields

  /** A member in memory: the bytes of a fixed-size one, or a length with a block of that many. */
  datatype Cell = Raw(bytes: Bytes) | Counted(len: U32, block: Ptr, text: Bytes)

  function Shown(c: Cell): Bytes {
    if c.Raw? then c.bytes else c.text
  }

  /** What an item's members hold, memory aside. */
  type Value = map<Field, Bytes>

  function ValueOf(cells: map<Field, Cell>): (v: Value)
    ensures v.Keys == cells.Keys
  {
    map f | f in cells :: Shown(cells[f])
  }

  function SlotOf(kind: Kind, row: FormatRow): Slot {
    SlotFor(kind, row.typeId, row.abrev)
  }

  // The specification: store one value after the other.

  /** A value that stays inside its member: any text, or no more than the width. A wider one is copied
      over whatever lies behind the member. */
  predicate Fits(kind: Kind, row: FormatRow, data: Bytes) {
    SlotOf(kind, row).Fixed? ==> |data| <= SlotOf(kind, row).width
  }

  predicate Fit(kind: Kind, rows: seq<FormatRow>, values: seq<Bytes32>)
    requires |rows| == |values|
  {
    forall i {:trigger rows[i]} :: 0 <= i < |rows| ==> Fits(kind, rows[i], values[i])
  }

  /** memcpy into a fixed-size member overwrites its front; a text replaces what was there. */
  function StoreOne(kind: Kind, row: FormatRow, data: Bytes, v: Value): Value
    requires Fits(kind, row, data)
  {
    match SlotOf(kind, row)
    case NoSlot => v
    case Fixed(f, _) => v[f := data + if f in v && |data| <= |v[f]| then v[f][|data|..] else []]
    case Text(f, _) => v[f := data]
  }

  function StoreAll(kind: Kind, rows: seq<FormatRow>, values: seq<Bytes32>, v: Value): Value
    requires |rows| == |values| && Fit(kind, rows, values)
  {
    if rows == [] then v
    else StoreOne(kind, rows[|rows| - 1], values[|rows| - 1], StoreAll(kind, rows[..|rows| - 1], values[..|rows| - 1], v))
  }

  /** How many blocks storing the rows allocates. */
  function Texts(kind: Kind, rows: seq<FormatRow>): nat {
    if rows == [] then 0
    else Texts(kind, rows[..|rows| - 1]) + if SlotOf(kind, rows[|rows| - 1]).Text? then 1 else 0
  }

  lemma StoreNext(kind: Kind, rows: seq<FormatRow>, values: seq<Bytes32>, v: Value, i: nat)
    requires |rows| == |values| && i < |rows|
    ensures Fit(kind, rows[..i + 1], values[..i + 1]) <==> Fit(kind, rows[..i], values[..i]) && Fits(kind, rows[i], values[i])
    ensures Fit(kind, rows[..i + 1], values[..i + 1]) ==>
              StoreAll(kind, rows[..i + 1], values[..i + 1], v)
              == StoreOne(kind, rows[i], values[i], StoreAll(kind, rows[..i], values[..i], v))
    ensures Texts(kind, rows[..i + 1]) == Texts(kind, rows[..i]) + if SlotOf(kind, rows[i]).Text? then 1 else 0
  {
    var front, last := rows[..i + 1], values[..i + 1];
    assert front[..i] == rows[..i] && last[..i] == values[..i];
    assert forall k :: 0 <= k < i ==> front[k] == rows[..i][k] && last[k] == values[..i][k];
    assert front[i] == rows[i] && last[i] == values[i];
  }

  /** A member that is not as it was is a fixed-size one, or a text of the recorded length in a block of its own. */
  ghost predicate Kept(cells: map<Field, Cell>, was: map<Field, Cell>, live: set<nat>, before: set<nat>) {
    forall f :: f in cells ==>
      || (f in was && cells[f] == was[f])
      || cells[f].Raw?
      || (cells[f].len == |cells[f].text| && cells[f].block.Block? && cells[f].block.id in live && cells[f].block.id !in before)
  }

  class Item {
    var cells: map<Field, Cell>

    constructor (cells: map<Field, Cell>)
      ensures this.cells == cells
    {
      this.cells := cells;
    }

    /** One round of the parser's loop: dispatch on the row, copy the value. One that does not fit may
        change any member. */
    method StoreParam(kind: Kind, row: AdiParam, param: AdrParam, heap: Heap) returns (r: int)
      requires heap.Valid()
      modifies this, heap
      ensures heap.Valid() && old(heap.retired) <= heap.retired && old(heap.live) <= heap.live
      ensures var slot := SlotFor(kind, row.typeId, row.abrev);
              && heap.calls == old(heap.calls) + (if slot.Text? then 1 else 0)
              && (r == if slot.Text? && heap.fails(old(heap.calls)) then slot.code else 0)
              && (r != 0 ==> cells == old(cells)[slot.field := Counted(param.paramLen, Null, [])]
                             && ValueOf(cells) == old(ValueOf(cells))[slot.field := []])
      ensures var format := FormatRow(row.abrev, row.typeId, row.desc);
              r == 0 && Fits(kind, format, param.data) ==>
                ValueOf(cells) == StoreOne(kind, format, param.data, old(ValueOf(cells)))
      ensures r == 0 && Fits(kind, FormatRow(row.abrev, row.typeId, row.desc), param.data) ==>
                match SlotFor(kind, row.typeId, row.abrev)
                case NoSlot => cells == old(cells) && heap.live == old(heap.live)
                case Fixed(f, _) =>
                  f in cells && cells[f].Raw? && cells == old(cells)[f := cells[f]] && heap.live == old(heap.live)
                case Text(f, _) =>
                  && f in cells && cells[f].Counted?
                  && cells == old(cells)[f := Counted(param.paramLen, cells[f].block, param.data)]
                  && cells[f].block.Block? && cells[f].block.id !in old(heap.live)
                  && heap.live == old(heap.live) + {cells[f].block.id}
    {
      hide SlotFor;
      ghost var before := ValueOf(cells);
      CodesAreFieldCodes(kind, row.typeId, row.abrev);
      r := 0;
      match SlotFor(kind, row.typeId, row.abrev) {
        case NoSlot =>
        case Fixed(f, width) =>
          if |param.data| > width {
            cells := *;
            return;
          }
          var was := if f in cells && |param.data| <= |Shown(cells[f])| then Shown(cells[f])[|param.data|..] else [];
          cells := cells[f := Raw(param.data + was)];
          assert ValueOf(cells) == before[f := param.data + was];
        case Text(f, code) =>
          var block := heap.Malloc();
          cells := cells[f := Counted(param.paramLen, block, if block.Null? then [] else param.data)];
          assert ValueOf(cells) == before[f := if block.Null? then [] else param.data];
          if block.Null? {
            return code;
          }
      }
    }

    /** The item-parser loop. Without a failing malloc every value has been stored in turn; the first
        one that fails ends the loop with the code of its field, everything before it stored. What
        the item holds is told of values that fit. */
    method ParseParams(kind: Kind, format: seq<AdiParam>, params: seq<AdrParam>, heap: Heap) returns (r: int)
      requires heap.Valid()
      modifies this, heap
      ensures heap.Valid() && old(heap.retired) <= heap.retired && old(heap.live) <= heap.live
      ensures r == -1 <==> |format| != |params|
      ensures r == -1 ==> unchanged(this) && unchanged(heap)
      ensures r == 0 && Fit(kind, Format(format), Values(params)) ==>
                ValueOf(cells) == StoreAll(kind, Format(format), Values(params), old(ValueOf(cells)))
      ensures r <= 0 && old(heap.calls) <= heap.calls
      ensures r == 0 <==>
                |format| == |params| && Granted(heap.fails, old(heap.calls), Texts(kind, Format(format)))
      ensures r == 0 && Fit(kind, Format(format), Values(params))
              && (forall i :: 0 <= i < |params| ==> params[i].paramLen == |params[i].data|) ==>
                Kept(cells, old(cells), heap.live, old(heap.live))
      ensures r < -1 ==>
                exists i :: 0 <= i < |format|
                            && StoppedAt(kind, format, params, old(cells), cells, heap.fails, old(heap.calls), r, i)
    {
      hide SlotFor, StoreOne, StoreAll, Texts, Granted, ValueOf, Fit, Fits;
      if |format| != |params| {
        return -1;
      }
      ghost var rows, values, before := Format(format), Values(params), ValueOf(cells);
      var i := 0;
      NothingStored(kind, rows, values, before, heap.fails, heap.calls);
      while i < |format|
        invariant i <= |format| && heap.Valid() && old(heap.retired) <= heap.retired && old(heap.live) <= heap.live
        invariant Fit(kind, rows[..i], values[..i]) ==> ValueOf(cells) == StoreAll(kind, rows[..i], values[..i], before)
        invariant heap.calls == old(heap.calls) + Texts(kind, rows[..i])
        invariant Fit(kind, rows[..i], values[..i])
                  && (forall k :: 0 <= k < |params| ==> params[k].paramLen == |params[k].data|) ==>
                    Kept(cells, old(cells), heap.live, old(heap.live))
        invariant Granted(heap.fails, old(heap.calls), Texts(kind, rows[..i]))
      {
        StoreNext(kind, rows, values, before, i);
        CodesAreFieldCodes(kind, format[i].typeId, format[i].abrev);
        r := StoreParam(kind, format[i], params[i], heap);
        if r != 0 {
          assert StoppedAt(kind, format, params, old(cells), cells, heap.fails, old(heap.calls), r, i);
          NotGranted(kind, rows, i, heap.fails, old(heap.calls));
          return;
        }
        if SlotFor(kind, format[i].typeId, format[i].abrev).Text? {
          GrantOneMore(heap.fails, old(heap.calls), Texts(kind, rows[..i]));
        }
        i := i + 1;
      }
      assert rows[..i] == rows && values[..i] == values;
      r := 0;
    }
  }

  lemma {:induction false} TextsGrow(kind: Kind, rows: seq<FormatRow>, i: nat)
    requires i <= |rows|
    ensures Texts(kind, rows[..i]) <= Texts(kind, rows)
  {
    hide SlotFor;
    if i == |rows| {
      assert rows[..i] == rows;
    } else {
      var front := rows[..|rows| - 1];
      assert front[..i] == rows[..i];
      TextsGrow(kind, front, i);
    }
  }

  lemma NotGranted(kind: Kind, rows: seq<FormatRow>, i: nat, fails: nat -> bool, calls: nat)
    requires i < |rows| && Texts(kind, rows[..i + 1]) == Texts(kind, rows[..i]) + 1
    requires fails(calls + Texts(kind, rows[..i]))
    ensures !Granted(fails, calls, Texts(kind, rows))
  {
    hide Texts;
    TextsGrow(kind, rows, i + 1);
  }

  lemma NothingStored(kind: Kind, rows: seq<FormatRow>, values: seq<Bytes32>, v: Value, fails: nat -> bool, calls: nat)
    requires |rows| == |values|
    ensures Fit(kind, rows[..0], values[..0]) && StoreAll(kind, rows[..0], values[..0], v) == v
    ensures Texts(kind, rows[..0]) == 0 && Granted(fails, calls, 0)
  {
  }

  /** The loop ended in round i: the malloc for its text failed, the values of the rounds before are
      stored, and the member has the new length and a NULL pointer. */
  ghost predicate StoppedAt(kind: Kind, format: seq<AdiParam>, params: seq<AdrParam>, was: map<Field, Cell>,
                            now: map<Field, Cell>, fails: nat -> bool, calls: nat, r: int, i: nat)
    requires |format| == |params| && i < |format|
  {
    var rows, values := Format(format), Values(params);
    var slot := SlotFor(kind, format[i].typeId, format[i].abrev);
    && slot.Text? && r == slot.code
    && fails(calls + Texts(kind, rows[..i])) && Granted(fails, calls, Texts(kind, rows[..i]))
    && slot.field in now && now[slot.field] == Counted(params[i].paramLen, Null, [])
    && (Fit(kind, rows[..i], values[..i]) ==>
          ValueOf(now) == StoreAll(kind, rows[..i], values[..i], ValueOf(was))[slot.field := []])
  }

  lemma CodesAreFieldCodes(kind: Kind, typeId: Byte, a: Abrev)
    ensures SlotFor(kind, typeId, a).Text? ==> SlotFor(kind, typeId, a).code < -1
  {
    hide NameText, WorkText, HomeText, PrivateText;
    AddressCodes(a);
  }

  lemma AddressCodes(a: Abrev)
    ensures NameText(a).Text? ==> -16 <= NameText(a).code <= -3
    ensures WorkText(a).Text? ==> -30 <= WorkText(a).code <= -17
    ensures HomeText(a).Text? ==> -40 <= HomeText(a).code <= -31
    ensures PrivateText(a).Text? ==> -49 <= PrivateText(a).code <= -41
  {
  }

  // What the specification means.

  /** The last row that designates field f, or -1. */
  function LastFor(kind: Kind, rows: seq<FormatRow>, f: Field): (j: int)
    ensures -1 <= j < |rows|
    ensures forall i {:trigger rows[i]} :: j < i < |rows| ==> SlotOf(kind, rows[i]) == NoSlot || SlotOf(kind, rows[i]).field != f
    ensures j >= 0 ==> SlotOf(kind, rows[j]) != NoSlot && SlotOf(kind, rows[j]).field == f
  {
    if rows == [] then -1
    else
      var last := SlotOf(kind, rows[|rows| - 1]);
      if last != NoSlot && last.field == f then |rows| - 1 else LastFor(kind, rows[..|rows| - 1], f)
  }

  /** A value that fills its member completely: any text, or exactly the width. */
  predicate Fills(kind: Kind, row: FormatRow, data: Bytes) {
    SlotOf(kind, row).Fixed? ==> |data| == SlotOf(kind, row).width
  }

  predicate Designates(kind: Kind, row: FormatRow, f: Field) {
    SlotOf(kind, row) != NoSlot && SlotOf(kind, row).field == f
  }

  /** If member f is a fixed-size one, it is there with its width. */
  predicate LaidAt(kind: Kind, v: Value, f: Field) {
    var slot := SlotFor(kind, KeyOf(kind, f).0, KeyOf(kind, f).1);
    slot.Fixed? && slot.field == f ==> f in v && |v[f]| == slot.width
  }

  /** An item structure in memory has all its fixed-size members. */
  ghost predicate Laid(kind: Kind, v: Value) {
    forall f :: LaidAt(kind, v, f)
  }

  lemma FitFront(kind: Kind, rows: seq<FormatRow>, values: seq<Bytes32>)
    requires |rows| == |values| > 0 && Fit(kind, rows, values)
    ensures Fit(kind, rows[..|rows| - 1], values[..|rows| - 1])
    ensures Fits(kind, rows[|rows| - 1], values[|rows| - 1])
  {
    hide SlotFor, Fits;
    assert forall i :: 0 <= i < |rows| - 1 ==> rows[..|rows| - 1][i] == rows[i];
  }

  /** A field ends up with the value of the last row that designates it, and is untouched when none
      does, as long as the rows for other fields carry values that fit theirs. */
  lemma {:induction false} LastRowWins(kind: Kind, rows: seq<FormatRow>, values: seq<Bytes32>, v: Value, f: Field)
    requires |rows| == |values| && LaidAt(kind, v, f) && Fit(kind, rows, values)
    requires forall i {:trigger rows[i]} :: 0 <= i < |rows| && Designates(kind, rows[i], f) ==> Fills(kind, rows[i], values[i])
    ensures var j, w := LastFor(kind, rows, f), StoreAll(kind, rows, values, v);
            if j < 0 then (f in w <==> f in v) && (f in v ==> w[f] == v[f])
            else f in w && w[f] == values[j]
    ensures LaidAt(kind, StoreAll(kind, rows, values, v), f)
  {
    hide SlotFor, KeyOf;
    if rows != [] {
      var n := |rows| - 1;
      FitFront(kind, rows, values);
      LastRowWins(kind, rows[..n], values[..n], v, f);
      StoreAt(kind, rows[n], values[n], StoreAll(kind, rows[..n], values[..n], v), f);
    }
  }

  /** One row stores its value in the field it designates and leaves every other alone. */
  lemma StoreAt(kind: Kind, row: FormatRow, data: Bytes, v: Value, f: Field)
    requires LaidAt(kind, v, f) && Fits(kind, row, data) && (Designates(kind, row, f) ==> Fills(kind, row, data))
    ensures var w := StoreOne(kind, row, data, v);
            && LaidAt(kind, w, f)
            && if Designates(kind, row, f) then f in w && w[f] == data
               else (f in w <==> f in v) && (f in v ==> w[f] == v[f])
  {
    hide SlotFor, KeyOf;
    if Designates(kind, row, f) {
      SlotHasOneKey(kind, row.typeId, row.abrev);
      if SlotOf(kind, row).Fixed? {
        assert |v[f]| == |data| && v[f][|data|..] == [] && data + [] == data;
      }
    }
  }

  /** No key occurs twice in a format. */
  ghost predicate DistinctKeys(rows: seq<FormatRow>) {
    forall i, j :: 0 <= i < j < |rows| ==> (rows[i].typeId, rows[i].abrev) != (rows[j].typeId, rows[j].abrev)
  }

  /** With distinct keys, a row that designates a field is the last that does. */
  lemma OnlyRowFor(kind: Kind, rows: seq<FormatRow>, i: nat)
    requires DistinctKeys(rows) && i < |rows| && SlotOf(kind, rows[i]) != NoSlot
    ensures LastFor(kind, rows, SlotOf(kind, rows[i]).field) == i
  {
    hide SlotFor;
    var f := SlotOf(kind, rows[i]).field;
    var j := LastFor(kind, rows, f);
    SlotHasOneKey(kind, rows[i].typeId, rows[i].abrev);
    if j >= 0 {
      SlotHasOneKey(kind, rows[j].typeId, rows[j].abrev);
    }
  }

  function Permuted<T>(s: seq<T>, p: seq<nat>): seq<T>
    requires forall i :: 0 <= i < |p| ==> p[i] < |s|
  {
    seq(|p|, i requires 0 <= i < |p| => s[p[i]])
  }

  /** p and q are inverse permutations of the indices below n. */
  ghost predicate Permutation(p: seq<nat>, q: seq<nat>, n: nat) {
    && |p| == |q| == n
    && (forall i :: 0 <= i < n ==> p[i] < n && q[p[i]] == i)
    && (forall j :: 0 <= j < n ==> q[j] < n && p[q[j]] == j)
  }

  lemma SameRowFor(kind: Kind, rows: seq<FormatRow>, p: seq<nat>, q: seq<nat>, f: Field)
    requires Permutation(p, q, |rows|) && DistinctKeys(rows)
    ensures DistinctKeys(Permuted(rows, p))
    ensures var j, k := LastFor(kind, rows, f), LastFor(kind, Permuted(rows, p), f);
            (j < 0 <==> k < 0) && (k >= 0 ==> p[k] == j)
  {
    hide SlotFor, LastFor;
    var moved := Permuted(rows, p);
    assert DistinctKeys(moved);
    var j, k := LastFor(kind, rows, f), LastFor(kind, moved, f);
    if k >= 0 {
      assert moved[k] == rows[p[k]];
      OnlyRowFor(kind, rows, p[k]);
    }
    if j >= 0 {
      assert moved[q[j]] == rows[j];
      OnlyRowFor(kind, moved, q[j]);
    }
  }

  /** Two values that say the same of field f. */
  predicate AgreeAt(v: Value, w: Value, f: Field) {
    (f in v <==> f in w) && (f in v ==> v[f] == w[f])
  }

  /** With distinct keys a field is what its only row, if any, makes of what was there before. */
  lemma {:induction false} OnlyRowDecides(kind: Kind, rows: seq<FormatRow>, values: seq<Bytes32>, v: Value, f: Field)
    requires |rows| == |values| && DistinctKeys(rows) && Fit(kind, rows, values)
    ensures var j := LastFor(kind, rows, f);
            AgreeAt(StoreAll(kind, rows, values, v), if j < 0 then v else StoreOne(kind, rows[j], values[j], v), f)
  {
    hide SlotFor;
    if rows != [] {
      var n := |rows| - 1;
      FitFront(kind, rows, values);
      OnlyRowDecides(kind, rows[..n], values[..n], v, f);
      if Designates(kind, rows[n], f) {
        OnlyRowFor(kind, rows, n);
        NoEarlierRow(kind, rows, f);
      }
    }
  }

  lemma NoEarlierRow(kind: Kind, rows: seq<FormatRow>, f: Field)
    requires DistinctKeys(rows) && rows != [] && Designates(kind, rows[|rows| - 1], f)
    ensures LastFor(kind, rows[..|rows| - 1], f) == -1
  {
    hide SlotFor, KeyOf;
    var front := rows[..|rows| - 1];
    var j := LastFor(kind, front, f);
    SlotHasOneKey(kind, rows[|rows| - 1].typeId, rows[|rows| - 1].abrev);
    if j >= 0 {
      SlotHasOneKey(kind, front[j].typeId, front[j].abrev);
    }
  }

  /** Rearranging the rows and the values together leaves the item the same: values may be shorter than
      their members, but not wider. */
  lemma OrderIsFree(kind: Kind, rows: seq<FormatRow>, values: seq<Bytes32>, v: Value, p: seq<nat>, q: seq<nat>)
    requires |rows| == |values| && Permutation(p, q, |rows|) && DistinctKeys(rows) && Fit(kind, rows, values)
    ensures Fit(kind, Permuted(rows, p), Permuted(values, p))
    ensures StoreAll(kind, Permuted(rows, p), Permuted(values, p), v) == StoreAll(kind, rows, values, v)
  {
    hide SlotFor, KeyOf, StoreAll, StoreOne, LastFor, DistinctKeys, Fits;
    var rows', values' := Permuted(rows, p), Permuted(values, p);
    assert forall i :: 0 <= i < |rows'| ==> Fits(kind, rows[p[i]], values[p[i]]);
    var w, w' := StoreAll(kind, rows, values, v), StoreAll(kind, rows', values', v);
    forall f: Field ensures AgreeAt(w, w', f) {
      SameRowFor(kind, rows, p, q, f);
      OnlyRowDecides(kind, rows, values, v, f);
      OnlyRowDecides(kind, rows', values', v, f);
    }
    assert forall f :: f in w ==> AgreeAt(w, w', f);
    assert forall f :: f in w' ==> AgreeAt(w, w', f);
  }

  /** The values of an item in the order of a format; a row that designates nothing carries nothing. */
  function InOrder(kind: Kind, rows: seq<FormatRow>, item: map<Field, Bytes32>): (values: seq<Bytes32>)
    ensures |values| == |rows|
  {
    seq(|rows|, i requires 0 <= i < |rows| =>
      var slot := SlotOf(kind, rows[i]);
      if slot != NoSlot && slot.field in item then item[slot.field] else [])
  }

  /** A format that lists the key of a member. */
  ghost predicate Listed(kind: Kind, rows: seq<FormatRow>, f: Field) {
    Member(kind, f) && exists i :: 0 <= i < |rows| && (rows[i].typeId, rows[i].abrev) == KeyOf(kind, f)
  }

  /** A member is designated exactly if its key is listed. */
  lemma ListedIsDesignated(kind: Kind, rows: seq<FormatRow>, f: Field)
    ensures Listed(kind, rows, f) <==> LastFor(kind, rows, f) >= 0
  {
    hide SlotFor, KeyOf, Member;
    MemberHasKey(kind, f);
    var j := LastFor(kind, rows, f);
    if j >= 0 {
      SlotHasOneKey(kind, rows[j].typeId, rows[j].abrev);
    }
  }

  /** A format as the device would describe it, and an item as it would send it, both on the wire;
      what the two raw parsers and the item parser make of them is the item again, whatever the
      structure held before. The format may list the item's fields in any order and mention unknown
      ones and fields the item lacks besides; its keys must be distinct and include those of the item. */
  lemma ItemRoundTrip(kind: Kind, adi: AdiWire, unknown: (Byte, Byte), item: map<Field, Bytes32>, before: Value,
                      afterAdi: Bytes, afterAdr: Bytes)
    requires DistinctKeys(adi.rows) && Laid(kind, before)
    requires forall f :: f in item ==> LaidAt(kind, item, f) && Listed(kind, adi.rows, f)
    ensures var adr := AdrWire(unknown, InOrder(kind, adi.rows, item));
            var format := DecodeAdi(EncodeAdi(adi) + afterAdi);
            var data := DecodeAdr(EncodeAdr(adr) + afterAdr);
            && format.Good? && data.Good? && |format.val.rows| == |data.val.values|
            && Fit(kind, format.val.rows, data.val.values)
            && var result := StoreAll(kind, format.val.rows, data.val.values, before);
               forall f :: f in item ==> f in result && result[f] == item[f]
  {
    hide SlotFor, KeyOf, StoreAll, LastFor, LaidAt, Fills, Fits, Listed, EncodeAdi, DecodeAdi, EncodeAdr, DecodeAdr;
    var rows, values := adi.rows, InOrder(kind, adi.rows, item);
    DecodeEncodeAdi(adi, afterAdi);
    DecodeEncodeAdr(AdrWire(unknown, values), afterAdr);
    forall i | 0 <= i < |rows| ensures Fits(kind, rows[i], values[i]) {
      OwnFits(kind, rows[i], item, values[i]);
    }
    forall f | f in item
      ensures var result := StoreAll(kind, rows, values, before); f in result && result[f] == item[f] {
      forall i | 0 <= i < |rows| && Designates(kind, rows[i], f) ensures Fills(kind, rows[i], values[i]) {
        OwnWidth(kind, rows[i], item, f);
      }
      assert LaidAt(kind, before, f);
      ListedIsDesignated(kind, rows, f);
      LastRowWins(kind, rows, values, before, f);
    }
  }

  lemma OwnFits(kind: Kind, row: FormatRow, item: map<Field, Bytes32>, data: Bytes)
    requires forall f :: f in item ==> LaidAt(kind, item, f)
    requires var slot := SlotOf(kind, row); data == if slot != NoSlot && slot.field in item then item[slot.field] else []
    ensures Fits(kind, row, data)
  {
    hide SlotFor, KeyOf, LaidAt;
    var slot := SlotOf(kind, row);
    if slot != NoSlot && slot.field in item {
      assert LaidAt(kind, item, slot.field);
      OwnWidth(kind, row, item, slot.field);
    }
  }

  lemma OwnWidth(kind: Kind, row: FormatRow, v: Value, f: Field)
    requires Designates(kind, row, f) && f in v && LaidAt(kind, v, f)
    ensures Fills(kind, row, v[f])
  {
    hide SlotFor, KeyOf;
    SlotHasOneKey(kind, row.typeId, row.abrev);
  }
}
