/** The todo record: what its writer stores against what its length function and a reader
    of length-prefixed values expect. */
module TodoRecords {
  import opened Wire
  import opened Codecs
  import opened Replies
  import opened Requests

  function HeadRecord(t: Todo): Bytes
    requires Backed(t)
  {
    PutValue(t.category[..t.categoryLen])
    + PutValue(t.startDate) + PutValue(t.dueDate) + PutValue(t.completedDate)
    + PutValue([t.progress]) + PutValue([t.priority])
  }

  lemma {:induction false} PutAllAppend(xs: seq<Bytes32>, ys: seq<Bytes32>)
    ensures PutAll(PutValue, xs + ys) == PutAll(PutValue, xs) + PutAll(PutValue, ys)
  {
    if xs == [] {
      assert xs + ys == ys;
    } else {
      assert (xs + ys)[1..] == xs[1..] + ys;
      PutAllAppend(xs[1..], ys);
    }
  }

  lemma PutOne(x: Bytes32)
    ensures PutAll(PutValue, [x]) == PutValue(x)
  {
  }

  lemma PutPair(x: Bytes32, y: Bytes32)
    ensures PutAll(PutValue, [x, y]) == PutValue(x) + PutValue(y)
  {
    PutAllAppend([x], [y]);
    assert [x] + [y] == [x, y];
    PutOne(x);
    PutOne(y);
  }

  /** The intended record, flattened. */
  lemma RecordLayout(t: Todo)
    requires Backed(t)
    ensures TodoRecord(t)
            == HeadRecord(t) + PutValue(t.description[..t.descriptionLen]) + PutValue(t.notes[..t.notesLen])
  {
    hide PutAll, PutValue, TodoLength;
    var p := TodoParts(t);
    assert p == [p[0], p[1]] + [p[2], p[3]] + [p[4], p[5]] + [p[6], p[7]];
    PutAllAppend([p[0], p[1]] + [p[2], p[3]] + [p[4], p[5]], [p[6], p[7]]);
    PutAllAppend([p[0], p[1]] + [p[2], p[3]], [p[4], p[5]]);
    PutAllAppend([p[0], p[1]], [p[2], p[3]]);
    PutPair(p[0], p[1]);
    PutPair(p[2], p[3]);
    PutPair(p[4], p[5]);
    PutPair(p[6], p[7]);
    Flatten(PutValue(p[0]), PutValue(p[1]), PutValue(p[2]), PutValue(p[3]), PutValue(p[4]), PutValue(p[5]),
            PutValue(p[6]), PutValue(p[7]));
  }

  lemma Flatten(a: Bytes, b: Bytes, c: Bytes, d: Bytes, e: Bytes, f: Bytes, g: Bytes, h: Bytes)
    ensures (a + b) + (c + d) + (e + f) + (g + h) == (a + b + c + d + e + f) + g + h
  {
    assert (a + b) + (c + d) == a + b + c + d;
    assert (a + b + c + d) + (e + f) == a + b + c + d + e + f;
  }

  /** The length function measures the intended record, for all lengths. */
  lemma RecordHasLength(t: Todo)
    requires Backed(t)
    ensures |TodoRecord(t)| == TodoLength(t)
  {
    RecordLayout(t);
  }

  /** The intended record reads back to every part, whatever follows, for all lengths. */
  lemma RecordReadsBack(t: Todo, rest: Bytes)
    requires Backed(t)
    ensures GetMany(GetValue, TodoRecord(t) + rest, TODO_PARTS) == Good(TodoParts(t), rest)
  {
    ValueInverse();
    GetManyAfterPut(PutValue, GetValue, TodoParts(t), rest);
  }

  /** As written, the writer advances by the announced length exactly when description and
      notes together have eight bytes. */
  lemma WrittenLength(t: Todo)
    requires Backed(t)
    ensures |TodoBytes(t)| == TodoLength(t) - t.descriptionLen - t.notesLen + 8
    ensures |TodoBytes(t)| == TodoLength(t) <==> t.descriptionLen + t.notesLen == 8
  {
  }

  /** The todo items the writer happens to get right: four bytes of category and either four of
      description and four of notes, or eight of one and none of the other with length fields
      in the right places of the text. */
  predicate WrittenRight(t: Todo)
    requires Backed(t)
  {
    && t.categoryLen == 4
    && ((t.descriptionLen == 4 && t.notesLen == 4)
        || (t.descriptionLen == 8 && t.notesLen == 0
            && t.description[4..8] == Put32(0) && t.notes[..4] == Put32(0))
        || (t.descriptionLen == 0 && t.notesLen == 8
            && t.description[..4] == Put32(8) && t.notes[..8] == Put32(8) + Put32(8)))
  }

  function WrittenTail(t: Todo): Bytes
    requires Backed(t)
  {
    (Put32(t.descriptionLen) + t.description[..4]) + (Put32(t.notesLen) + t.notes[..4])
  }

  function RecordTail(t: Todo): Bytes
    requires Backed(t)
  {
    PutValue(t.description[..t.descriptionLen]) + PutValue(t.notes[..t.notesLen])
  }

  lemma SmallPut32(n: U32)
    requires n < 0x100
    ensures Put32(n) == [n, 0, 0, 0]
  {
  }

  /** A length field [m, 0, 0, 0] cannot stand both at offset 8 and less than four bytes away. */
  lemma Misplaced(x: Bytes, d: Bytes, e: Bytes, m: Byte, p: Bytes, q: Bytes)
    requires |x| == 4 == |d| && 0 < |e| < 8 && |e| != 4 && m != 0
    ensures x + d + [m, 0, 0, 0] + p != x + e + [m, 0, 0, 0] + q
  {
    var w, r := x + d + [m, 0, 0, 0] + p, x + e + [m, 0, 0, 0] + q;
    if |e| < 4 {
      assert w[8] == m && r[8] == 0;
    } else {
      assert w[4 + |e|] == 0 && r[4 + |e|] == m;
    }
  }

  /** Tails of equal length part when the lengths are not 4 and 4, 8 and 0, or 0 and 8. */
  lemma TailsPart(t: Todo)
    requires Backed(t) && t.descriptionLen + t.notesLen == 8
    requires t.descriptionLen !in [0, 4, 8]
    ensures WrittenTail(t) != RecordTail(t)
  {
    var k := t.descriptionLen;
    SmallPut32(8 - k);
    Misplaced(Put32(k), t.description[..4], t.description[..k], 8 - k, t.notes[..4], t.notes[..8 - k]);
    assert WrittenTail(t) == Put32(k) + t.description[..4] + Put32(8 - k) + t.notes[..4];
    assert RecordTail(t) == Put32(k) + t.description[..k] + Put32(8 - k) + t.notes[..8 - k];
  }

  lemma TailsAgreeEight(t: Todo)
    requires Backed(t) && t.descriptionLen == 8 && t.notesLen == 0
    ensures WrittenTail(t) == RecordTail(t) <==> t.description[4..8] == Put32(0) && t.notes[..4] == Put32(0)
  {
    var w, r := WrittenTail(t), RecordTail(t);
    assert t.description[..8] == t.description[..4] + t.description[4..8];
    assert w[8..12] == Put32(0) && r[8..12] == t.description[4..8];
    assert w[12..16] == t.notes[..4] && r[12..16] == Put32(0);
    assert w[..8] == r[..8];
    assert w == w[..8] + w[8..12] + w[12..16] && r == r[..8] + r[8..12] + r[12..16];
  }

  lemma TailsAgreeZero(t: Todo)
    requires Backed(t) && t.descriptionLen == 0 && t.notesLen == 8
    ensures WrittenTail(t) == RecordTail(t) <==>
              t.description[..4] == Put32(8) && t.notes[..8] == Put32(8) + Put32(8)
  {
    var w, r := WrittenTail(t), RecordTail(t);
    assert t.notes[..8] == t.notes[..4] + t.notes[4..8];
    assert w[4..8] == t.description[..4] && r[4..8] == Put32(8);
    assert w[8..12] == Put32(8) && r[8..12] == t.notes[..4];
    assert w[12..16] == t.notes[..4] && r[12..16] == t.notes[4..8];
    assert w[..4] == r[..4];
    assert w == w[..4] + w[4..8] + w[8..12] + w[12..16] && r == r[..4] + r[4..8] + r[8..12] + r[12..16];
    assert (Put32(8) + Put32(8))[..4] == Put32(8) && (Put32(8) + Put32(8))[4..] == Put32(8);
  }

  lemma TailsAgree(t: Todo)
    requires Backed(t) && t.descriptionLen + t.notesLen == 8
    ensures WrittenTail(t) == RecordTail(t) <==>
              (t.descriptionLen == 4
               || (t.descriptionLen == 8 && t.description[4..8] == Put32(0) && t.notes[..4] == Put32(0))
               || (t.descriptionLen == 0 && t.description[..4] == Put32(8) && t.notes[..8] == Put32(8) + Put32(8)))
  {
    if t.descriptionLen == 8 {
      TailsAgreeEight(t);
    } else if t.descriptionLen == 0 {
      TailsAgreeZero(t);
    } else if t.descriptionLen != 4 {
      TailsPart(t);
    }
  }

  lemma WrittenIsRecord(t: Todo)
    requires Backed(t)
    ensures TodoBytes(t) == TodoRecord(t) <==> WrittenRight(t)
  {
    RecordLayout(t);
    var w, r := TodoBytes(t), TodoRecord(t);
    assert w == TodoHead(t) + WrittenTail(t);
    assert r == HeadRecord(t) + RecordTail(t);
    if t.descriptionLen + t.notesLen == 8 {
      TailsAgree(t);
      assert |WrittenTail(t)| == 16 == |RecordTail(t)|;
      assert |TodoHead(t)| == |HeadRecord(t)|;
      HeadsAgree(t);
      assert w == r <==> TodoHead(t) == HeadRecord(t) && WrittenTail(t) == RecordTail(t) by {
        assert w[..|TodoHead(t)|] == TodoHead(t) && r[..|TodoHead(t)|] == HeadRecord(t);
        assert w[|TodoHead(t)|..] == WrittenTail(t) && r[|TodoHead(t)|..] == RecordTail(t);
      }
    } else {
      RecordHasLength(t);
      WrittenLength(t);
    }
  }

  lemma HeadsAgree(t: Todo)
    requires Backed(t)
    ensures TodoHead(t) == HeadRecord(t) <==> t.categoryLen == 4
  {
    assert TodoHead(t)[..4] == Put32(4);
    assert HeadRecord(t)[..4] == Put32(t.categoryLen);
    if t.categoryLen != 4 {
      assert Get32(Put32(4)) != Get32(Put32(t.categoryLen));
    }
  }

  /** What the writer stores reads back to the item, with nothing left over, exactly for the
      items of WrittenRight. */
  lemma ReadBackExactly(t: Todo)
    requires Backed(t)
    ensures GetMany(GetValue, TodoBytes(t), TODO_PARTS) == Good(TodoParts(t), []) <==> WrittenRight(t)
  {
    if GetMany(GetValue, TodoBytes(t), TODO_PARTS) == Good(TodoParts(t), []) {
      ValueInverse();
      PutAfterGetMany(PutValue, GetValue, TodoBytes(t), TODO_PARTS);
    }
    if TodoBytes(t) == TodoRecord(t) {
      RecordReadsBack(t, []);
    }
    assert TodoRecord(t) + [] == TodoRecord(t);
    WrittenIsRecord(t);
  }
}
