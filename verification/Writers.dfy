/** The request writers: stores through an advancing position into the block that was sized
    by the length functions. Staying inside the block is what the array bounds check. */
module Writers {
  import opened Wire
  import opened Requests

  /** Copy `data` to position `pos`. What stands before it is `base` and then `done`. */
  method Store(buf: array<Byte>, pos: nat, data: Bytes, ghost base: Bytes, ghost done: Bytes) returns (end: nat)
    requires pos + |data| <= buf.Length && buf[..pos] == base + done
    modifies buf
    ensures end == pos + |data| && buf[..end] == base + (done + data)
  {
    end := pos + |data|;
    ghost var before := buf[..pos];
    forall i | 0 <= i < |data| {
      buf[pos + i] := data[i];
    }
    assert buf[..pos] == before;
    assert buf[..end] == buf[..pos] + buf[pos..end] && buf[pos..end] == data;
  }

  /** A 32-bit length field and then `data`. */
  method StoreSized(buf: array<Byte>, pos: nat, len: U32, data: Bytes, ghost base: Bytes, ghost done: Bytes)
    returns (end: nat)
    requires pos + 4 + |data| <= buf.Length && buf[..pos] == base + done
    modifies buf
    ensures end == pos + 4 + |data| && buf[..end] == base + (done + (Put32(len) + data))
  {
    end := Store(buf, pos, Put32(len), base, done);
    end := Store(buf, end, data, base, done + Put32(len));
    assert done + Put32(len) + data == done + (Put32(len) + data);
  }

  method TodoWrite(buf: array<Byte>, pos: nat, todo: Todo, ghost base: Bytes) returns (end: nat)
    requires Backed(todo) && pos + |TodoBytes(todo)| <= buf.Length && buf[..pos] == base
    modifies buf
    ensures end == pos + |TodoBytes(todo)| && buf[..end] == base + TodoBytes(todo)
  {
    ghost var done: Bytes := [];
    assert base + done == base;
    end := TodoHeadWrite(buf, pos, todo, base);
    done := TodoHead(todo);
    end := StoreSized(buf, end, todo.descriptionLen, todo.description[..4], base, done);
    done := done + (Put32(todo.descriptionLen) + todo.description[..4]);
    end := StoreSized(buf, end, todo.notesLen, todo.notes[..4], base, done);
  }

  method TodoHeadWrite(buf: array<Byte>, pos: nat, todo: Todo, ghost base: Bytes) returns (end: nat)
    requires Backed(todo) && pos + |TodoHead(todo)| <= buf.Length && buf[..pos] == base
    modifies buf
    ensures end == pos + |TodoHead(todo)| && buf[..end] == base + TodoHead(todo)
  {
    ghost var done: Bytes := [];
    assert base + done == base;
    end := StoreSized(buf, pos, 4, todo.category[..todo.categoryLen], base, done);
    done := Put32(4) + todo.category[..todo.categoryLen];
    assert [] + done == done;
    end := StoreSized(buf, end, 5, todo.startDate, base, done);
    done := done + (Put32(5) + todo.startDate);
    end := StoreSized(buf, end, 5, todo.dueDate, base, done);
    done := done + (Put32(5) + todo.dueDate);
    end := StoreSized(buf, end, 5, todo.completedDate, base, done);
    done := done + (Put32(5) + todo.completedDate);
    end := StoreSized(buf, end, 1, [todo.progress], base, done);
    done := done + (Put32(1) + [todo.progress]);
    end := StoreSized(buf, end, 1, [todo.priority], base, done);
  }

  method RrlWrite(buf: array<Byte>, pwSize: Byte, pw: Bytes) returns (end: nat)
    requires pwSize <= |pw| && 1 + pwSize <= buf.Length
    modifies buf
    ensures end == 1 + pwSize && buf[..end] == [pwSize] + pw[..pwSize]
  {
    buf[0] := pwSize;
    assert buf[..1] == [] + [pwSize];
    end := Store(buf, 1, pw[..pwSize], [], [pwSize]);
  }

  method RgeWrite(buf: array<Byte>, pathLen: U16, path: Bytes) returns (end: nat)
    requires pathLen <= |path| && 2 + pathLen <= buf.Length
    modifies buf
    ensures end == 2 + pathLen && buf[..end] == Put16(pathLen) + path[..pathLen]
  {
    end := Store(buf, 0, Put16(pathLen), [], []);
    end := Store(buf, end, path[..pathLen], [], Put16(pathLen));
  }

  /** The log is padded with zeros; a log larger than its field makes the writer give up (NULL). */
  method RmsWrite(buf: array<Byte>, logSize: U16, log: Bytes) returns (ok: bool, end: nat)
    requires |log| == RMS_LOG_SIZE && 2 + RMS_LOG_SIZE <= buf.Length
    modifies buf
    ensures ok <==> logSize <= RMS_LOG_SIZE
    ensures ok ==> end == 2 + RMS_LOG_SIZE
    ensures ok ==> buf[..end] == Put16(logSize) + log[..logSize] + seq(RMS_LOG_SIZE - logSize, _ => 0)
  {
    if logSize > |log| {
      return false, 0;
    }
    end := Store(buf, 0, Put16(logSize), [], []);
    end := Store(buf, end, log[..logSize], [], Put16(logSize));
    end := Store(buf, end, seq(RMS_LOG_SIZE - logSize, _ => 0), [], Put16(logSize) + log[..logSize]);
    ok := true;
  }

  /** The fields that tell one RDW variation from another. */
  method VariationWrite(buf: array<Byte>, pos: nat, v: RdwVariation, ghost base: Bytes) returns (end: nat)
    requires v.Three? ==> |v.created| == |v.modified| == 5
    requires pos + |VariationBytes(v)| <= buf.Length && buf[..pos] == base
    modifies buf
    ensures end == pos + |VariationBytes(v)| && buf[..end] == base + VariationBytes(v)
  {
    ghost var done: Bytes := [];
    assert base + done == base;
    match v {
      case One(padding) =>
        end := Store(buf, pos, padding, base, done);
      case Two(attribute) =>
        end := StoreSized(buf, pos, 1, [attribute], base, done);
      case Three(attribute, created, modified, id) =>
        end := StoreSized(buf, pos, 1, [attribute], base, done);
        done := Put32(1) + [attribute];
        assert [] + done == done;
        end := StoreSized(buf, end, 5, created, base, done);
        done := done + (Put32(5) + created);
        end := StoreSized(buf, end, 5, modified, base, done);
        done := done + (Put32(5) + modified);
        end := StoreSized(buf, end, 4, Put32(id), base, done);
      case Unknown(_) =>
        end := pos;
    }
  }

  /** Two and three single bytes, one after the other. */
  method TwoWrite(buf: array<Byte>, a: Byte, b: Byte) returns (end: nat)
    requires 2 <= buf.Length
    modifies buf
    ensures end == 2 && buf[..end] == [a, b]
  {
    buf[0] := a;
    buf[1] := b;
    end := 2;
  }

  method ThreeWrite(buf: array<Byte>, a: Byte, b: Byte, c: Byte) returns (end: nat)
    requires 3 <= buf.Length
    modifies buf
    ensures end == 3 && buf[..end] == [a, b, c]
  {
    buf[0] := a;
    buf[1] := b;
    buf[2] := c;
    end := 3;
  }

  /** What stands at each place of an id request: sync type, 16-bit count, 32-bit id. */
  lemma IdRead(sync: Byte, count: U16, id: U32)
    ensures var c := IdBytes(sync, count, id);
            |c| == 7 && c[0] == sync && Get16(c[1..]) == count && Get32(c[3..]) == id
  {
    var c := IdBytes(sync, count, id);
    assert c[1..] == Put16(count) + Put32(id) && c[3..] == Put32(id) + [];
    GetFromFront(Put16(count), Put32(id));
    GetFromFront(Put32(id), []);
  }

  /** Sync type, number of sync ids, sync id. */
  method IdWrite(buf: array<Byte>, sync: Byte, count: U16, id: U32) returns (end: nat)
    requires 7 <= buf.Length
    modifies buf
    ensures end == 7 && buf[..end] == IdBytes(sync, count, id)
    ensures buf[0] == sync && Get16(buf[1..7]) == count && Get32(buf[3..7]) == id
  {
    IdRead(sync, count, id);
    end := Store(buf, 0, [sync], [], []);
    end := Store(buf, end, Put16(count), [], [sync]);
    end := Store(buf, end, Put32(id), [], [sync] + Put16(count));
    ghost var stored := buf[..end];
    assert buf[0] == stored[0] && buf[1..7] == stored[1..] && buf[3..7] == stored[3..];
  }

  /** Fixed fields, the variation's own fields, then the item. Only todo items have a writer. */
  method RdwWrite(buf: array<Byte>, q: Request) returns (ok: bool, end: nat)
    requires q.Rdw? && Shaped(q) && |RequestBytes(q)| <= buf.Length
    modifies buf
    ensures ok <==> (q.variation.One? || q.variation.Three? ==> q.rdwSync == SYNC_TYPE_TODO)
    ensures end == |RequestBytes(q)| && buf[..end] == RequestBytes(q)
  {
    ghost var ids := IdBytes(q.rdwSync, q.rdwCount, q.rdwId);
    end := IdWrite(buf, q.rdwSync, q.rdwCount, q.rdwId);
    end := VariationWrite(buf, end, q.variation, ids);
    ok := true;
    if q.variation.One? || q.variation.Three? {
      if q.rdwSync == SYNC_TYPE_TODO {
        end := TodoWrite(buf, end, q.todo, ids + VariationBytes(q.variation));
      } else {
        ok := false;
      }
    }
  }

  /** Dispatch on the request. The bytes the writer stores stand at the front of the block;
      `ok` is false when it returned NULL. */
  method WriteRequest(buf: array<Byte>, q: Request) returns (ok: bool)
    requires Shaped(q) && |RequestBytes(q)| <= buf.Length
    requires q.Rms? ==> 2 + RMS_LOG_SIZE <= buf.Length
    modifies buf
    ensures buf[..|RequestBytes(q)|] == RequestBytes(q)
    ensures q.Rdw? ==> (ok <==> (q.variation.One? || q.variation.Three? ==> q.rdwSync == SYNC_TYPE_TODO))
  {
    ok := true;
    var end;
    match q {
      case Bare =>
      case Rrl(n, pw, _) => end := RrlWrite(buf, n, pw);
      case Rmg(unknown, sync) => end := TwoWrite(buf, unknown, sync);
      case Rms(n, log) => ok, end := RmsWrite(buf, n, log);
      case Rts(date) => end := Store(buf, 0, date, [], []);
      case Rdi(sync, unknown) => end := TwoWrite(buf, sync, unknown);
      case Rsy(sync, unknown) => end := TwoWrite(buf, sync, unknown);
      case Rss(uk1, sync, uk2) => end := ThreeWrite(buf, uk1, sync, uk2);
      case Rdr(sync, n, id) => end := IdWrite(buf, sync, n, id);
      case Rdw(_, _, _, _, _) => ok, end := RdwWrite(buf, q);
      case Rdd(sync, n, id) => end := IdWrite(buf, sync, n, id);
      case Rds(sync, status, nulls) =>
        end := TwoWrite(buf, sync, status);
        end := Store(buf, end, [nulls.0, nulls.1], [], [sync, status]);
      case Rqt(zeros) => end := Store(buf, 0, [zeros.0, zeros.1, zeros.2], [], []);
      case Rlr(sync) => end := Store(buf, 0, [sync], [], []);
      case Rge(n, path) => end := RgeWrite(buf, n, path);
    }
  }
}
