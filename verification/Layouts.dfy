/** The protocol byte by byte: what stands at each place of a signal, a frame, a request and a reply,
    in numbers and letters. */
module Layouts {
  import opened Wire
  import opened Codecs
  import opened Replies
  import opened Requests
  import opened Frames
  import opened Messages
  import Net

  // Numbers and types.

  /** Integers are little-endian. */
  lemma LittleEndian(b: Bytes)
    ensures |b| >= 2 ==> Get16(b) == b[0] as int + 256 * b[1] as int
    ensures |b| >= 4 ==> Get32(b) == b[0] as int + 256 * b[1] as int + 65536 * b[2] as int + 16777216 * b[3] as int
  {
  }

  /** The letters of a message type, as they go over the wire. */
  predicate Letters(t: Tag, a: char, b: char, c: char) {
    TagBytes(t) == [a as int, b as int, c as int]
  }

  lemma TypeLetters()
    ensures Letters(RAY, 'R', 'A', 'Y') && Letters(RIG, 'R', 'I', 'G') && Letters(RRL, 'R', 'R', 'L')
    ensures Letters(RMG, 'R', 'M', 'G') && Letters(RMS, 'R', 'M', 'S') && Letters(RTG, 'R', 'T', 'G')
    ensures Letters(RTS, 'R', 'T', 'S') && Letters(RDI, 'R', 'D', 'I') && Letters(RSY, 'R', 'S', 'Y')
    ensures Letters(RSS, 'R', 'S', 'S') && Letters(RDR, 'R', 'D', 'R') && Letters(RDW, 'R', 'D', 'W')
    ensures Letters(RDD, 'R', 'D', 'D') && Letters(RDS, 'R', 'D', 'S') && Letters(RQT, 'R', 'Q', 'T')
    ensures Letters(RLR, 'R', 'L', 'R') && Letters(RGE, 'R', 'G', 'E')
    ensures Letters(AAY, 'A', 'A', 'Y') && Letters(AIG, 'A', 'I', 'G') && Letters(AMG, 'A', 'M', 'G')
    ensures Letters(ATG, 'A', 'T', 'G') && Letters(AEX, 'A', 'E', 'X') && Letters(ANG, 'A', 'N', 'G')
    ensures Letters(ADI, 'A', 'D', 'I') && Letters(ADR, 'A', 'D', 'R') && Letters(ASY, 'A', 'S', 'Y')
    ensures Letters(ADW, 'A', 'D', 'W')
  {
  }

  /** The types that can be sent, and those that can be parsed. */
  lemma KnownTypes(t: Tag)
    ensures RequestTag(t) <==>
              t in {RAY, RIG, RRL, RMG, RMS, RTG, RTS, RDI, RSY, RSS, RDR, RDW, RDD, RDS, RQT, RLR, RGE}
    ensures DeviceTag(t) <==> t in {AAY, AIG, AMG, ATG, AEX, ANG, ADI, ASY, ADR, ADW}
  {
  }

  // Frames.

  /** Where the parts of a received general frame stood. */
  lemma FrameSpelled(b: Bytes)
    requires NextFrame(b).Received? && NextFrame(b).frame.General?
    ensures var f, n := NextFrame(b).frame, Get16(b[13..]);
            && 3 <= n && n + 17 <= |b| && 3 + |f.content| == n
            && f.header == b[..13] && TagBytes(f.tag) == b[15..18] && f.content == b[18..15 + n]
            && f.checkSum == Get16(b[15 + n..]) && NextFrame(b).rest == b[17 + n..]
  {
    var n := Get16(b[13..]);
    assert b[15..][3..n] == b[18..15 + n] && b[15..][n..] == b[15 + n..] && b[15..][n + 2..] == b[17 + n..];
  }

  /** The sum of bytes is additive. */
  lemma {:induction false} SumOfParts(a: Bytes, b: Bytes)
    ensures ByteSum(a + b) == ByteSum(a) + ByteSum(b)
  {
    if b == [] {
      assert a + b == a;
    } else {
      assert (a + b)[..|a + b| - 1] == a + b[..|b| - 1];
      SumOfParts(a, b[..|b| - 1]);
    }
  }

  lemma SumOfByte(n: Byte)
    ensures ByteSum([]) == 0 && ByteSum([n]) == n
  {
    assert [n][..0] == [];
  }

  /** A request frame in full: header with the content size, body size, type, content, and the sum of
      all bytes from offset 15 on, modulo 65536, in the last two. */
  lemma RequestSpelled(tag: Tag, content: Content16)
    ensures var w, n := EncodeFrame(Net.RequestFrame(tag, content)), |content|;
            && |w| == 20 + n
            && w[..9] == [0, 0, 0, 0, 0, 0x96, 1, 1, 0x0c] && Get16(w[9..]) == n && w[11..13] == [0, 0]
            && Get16(w[13..]) == 3 + n && w[15..18] == TagBytes(tag) && w[18..18 + n] == content
            && Get16(w[18 + n..]) == ByteSum(w[15..18 + n]) % 65536
  {
    var n, w := |content|, EncodeFrame(Net.RequestFrame(tag, content));
    FixedHeadersAreGeneral(n);
    Net.HeaderInFront(tag, content);
    var ck := CheckSum(tag, content);
    assert w[15..18 + n] == TagBytes(tag) + content;
    assert w[18 + n..] == Put16(ck);
    assert w[9..] == Put16(n) + w[11..] && w[13..] == Put16(3 + n) + w[15..];
    GetFromFront(Put16(n), w[11..]);
    GetFromFront(Put16(3 + n), w[15..]);
    assert w[..13] == DesktopHeader(n) && w[11..13] == DesktopHeader(n)[11..13];
  }

  // Replies.

  /** AIG: model string behind its length, five bytes unknown, language, authentication state, six
      bytes unknown. */
  lemma AigSpelled(b: Bytes)
    requires DecodeAig(b).Good?
    ensures var n, a := Get16(b), DecodeAig(b).val;
            && |b| >= n + 16 && a.model == b[2..2 + n]
            && a.language == (b[7 + n], b[8 + n]) && a.authState == b[9 + n]
  {
  }

  /** Ids stand four bytes apart. */
  lemma {:induction false} IdsAt(b: Bytes, n: nat, k: nat)
    requires GetMany(GetId, b, n).Good? && k < n
    ensures |b| >= 4 * n && GetMany(GetId, b, n).rest == b[4 * n..] && GetMany(GetId, b, n).val[k] == Get32(b[4 * k..])
    decreases n
  {
    hide GetMany;
    var left := NextOfMany(GetId, b, n);
    var c := b[4..];
    if n == 1 {
      RunDone(GetId, c);
    } else {
      IdsAt(c, n - 1, if k == 0 then 0 else k - 1);
      var p, q := 4 * n, 4 * k;
      assert c[p - 4..] == b[p..];
      if k > 0 {
        assert c[q - 4..] == b[q..];
        assert GetMany(GetId, b, n).val[k] == left.val[k - 1];
      }
    }
  }

  /** Abbreviations stand four bytes apart. */
  lemma {:induction false} AbrevsAt(b: Bytes, n: nat, k: nat)
    requires GetMany(TakeAbrev, b, n).Good? && k < n
    ensures |b| >= 4 * n && GetMany(TakeAbrev, b, n).rest == b[4 * n..]
    ensures AbrevBytes(GetMany(TakeAbrev, b, n).val[k]) == b[4 * k..4 * k + 4]
    decreases n
  {
    hide GetMany;
    var left := NextOfMany(TakeAbrev, b, n);
    var c := b[4..];
    if n == 1 {
      RunDone(TakeAbrev, c);
    } else {
      AbrevsAt(c, n - 1, if k == 0 then 0 else k - 1);
      var p, q := 4 * n, 4 * k;
      assert c[p - 4..] == b[p..];
      if k > 0 {
        assert c[q - 4..] == b[q..];
        assert GetMany(TakeAbrev, b, n).val[k] == left.val[k - 1];
      }
    }
  }

  /** Type ids stand one byte apart. */
  lemma {:induction false} TypesAt(b: Bytes, n: nat, k: nat)
    requires GetMany(GetType, b, n).Good? && k < n
    ensures |b| >= n && GetMany(GetType, b, n).rest == b[n..] && GetMany(GetType, b, n).val[k] == b[k]
    decreases n
  {
    hide GetMany;
    var left := NextOfMany(GetType, b, n);
    var c := b[1..];
    if n == 1 {
      RunDone(GetType, c);
    } else {
      TypesAt(c, n - 1, if k == 0 then 0 else k - 1);
      var p, q := 1 * n, k;
      assert c[p - 1..] == b[p..];
      if k > 0 {
        assert c[q - 1..] == b[q..];
        assert GetMany(GetType, b, n).val[k] == left.val[k - 1];
      }
    }
  }

  /** One list of an ASY body: id of the list, count, 32-bit ids. */
  lemma IdListSpelled(b: Bytes, k: nat)
    requires GetIdList(b).Good? && k < Get16(b[1..])
    ensures var n, l := Get16(b[1..]), GetIdList(b);
            && |b| >= 3 + 4 * n && l.val.listId == b[0] && |l.val.ids| == n
            && l.val.ids[k] == Get32(b[3 + 4 * k..]) && l.rest == b[3 + 4 * n..]
  {
    hide GetMany, GetId;
    var n: nat := Get16(b[1..]);
    IdsAt(b[3..], n, k);
    assert b[3..][4 * k..] == b[3 + 4 * k..] && b[3..][4 * n..] == b[3 + 4 * n..];
  }

  /** ASY: new, modified, deleted. */
  lemma AsySpelled(b: Bytes)
    requires DecodeAsy(b).Good?
    ensures var first := GetIdList(b);
            var second := GetIdList(first.rest);
            var third := GetIdList(second.rest);
            && first.Good? && second.Good? && third.Good?
            && DecodeAsy(b) == Good(AsyWire(first.val, second.val, third.val), third.rest)
  {
  }

  /** ADI: number of cards, number of rows, a byte unknown, then all abbreviations, all type ids, and
      all descriptions behind 16-bit lengths. */
  lemma AdiSpelled(b: Bytes, k: nat)
    requires DecodeAdi(b).Good? && k < Get16(b[4..])
    ensures var n, a := Get16(b[4..]), DecodeAdi(b).val;
            && |b| >= 7 + 5 * n && a.numCards == Get32(b) && a.unknown == b[6] && |a.rows| == n
            && AbrevBytes(a.rows[k].abrev) == b[7 + 4 * k..11 + 4 * k]
            && a.rows[k].typeId == b[7 + 4 * n + k]
            && GetMany(GetDesc, b[7 + 5 * n..], n).Good?
            && a.rows[k].desc == GetMany(GetDesc, b[7 + 5 * n..], n).val[k]
  {
    hide GetMany, GetDesc, TakeAbrev, GetType;
    var n: nat, c := Get16(b[4..]), b[7..];
    var abrevs := GetMany(TakeAbrev, c, n);
    var types := GetMany(GetType, abrevs.rest, n);
    var descs := GetMany(GetDesc, types.rest, n);
    AbrevsAt(c, n, k);
    TypesAt(abrevs.rest, n, k);
    assert c[4 * k..4 * k + 4] == b[7 + 4 * k..11 + 4 * k] && c[4 * n..] == b[7 + 4 * n..];
    assert b[7 + 4 * n..][n..] == b[7 + 5 * n..];
    var rows := Rows(abrevs.val, types.val, descs.val);
    assert Abrevs(rows)[k] == abrevs.val[k] && Types(rows)[k] == types.val[k] && Descs(rows)[k] == descs.val[k];
  }

  /** ADR: two bytes unknown, the number of values, and the values behind 32-bit lengths. */
  lemma AdrSpelled(b: Bytes)
    requires DecodeAdr(b).Good?
    ensures var values := GetMany(GetValue, b[4..], Get16(b[2..]));
            DecodeAdr(b) == Good(AdrWire((b[0], b[1]), values.val), values.rest)
  {
  }

  /** A run of length-prefixed strings, 16 or 32 bits: the first, and the run behind it. */
  lemma DescSpelled(b: Bytes, n: nat)
    requires GetMany(GetDesc, b, n).Good? && n > 0
    ensures var d, all := Get16(b), GetMany(GetDesc, b, n);
            && |b| >= 2 + d && all.val[0] == b[2..2 + d] && GetMany(GetDesc, b[2 + d..], n - 1).Good?
            && all.val[1..] == GetMany(GetDesc, b[2 + d..], n - 1).val
  {
  }

  lemma ValueSpelled(b: Bytes, n: nat)
    requires GetMany(GetValue, b, n).Good? && n > 0
    ensures var d, all := Get32(b), GetMany(GetValue, b, n);
            && |b| >= 4 + d && all.val[0] == b[4..4 + d] && GetMany(GetValue, b[4 + d..], n - 1).Good?
            && all.val[1..] == GetMany(GetValue, b[4 + d..], n - 1).val
  {
  }

  // Requests.

  /** What a content of a request of this kind says at each place. Integers of todo records and
      variations stand behind their 32-bit size. */
  predicate Carries(c: Bytes, q: Request)
    requires Shaped(q)
  {
    match q
    case Bare => c == []
    case Rrl(n, pw, _) => |c| == 1 + n as int && c[0] == n && c[1..] == pw[..n]
    case Rmg(unknown, sync) => |c| == 2 && c[0] == unknown && c[1] == sync
    case Rms(n, log) =>
      n <= 38 ==>
        && |c| == 40 && Get16(c) == n && c[2..2 + n] == log[..n]
        && forall i :: 2 + n as int <= i < 40 ==> c[i] == 0
    case Rts(date) => |c| == 14 && c == date
    case Rdi(sync, unknown) => |c| == 2 && c[0] == sync && c[1] == unknown
    case Rsy(sync, unknown) => |c| == 2 && c[0] == sync && c[1] == unknown
    case Rss(uk1, sync, uk2) => |c| == 3 && c[0] == uk1 && c[1] == sync && c[2] == uk2
    case Rdr(sync, n, id) => |c| == 7 && c[0] == sync && Get16(c[1..]) == n && Get32(c[3..]) == id
    case Rdd(sync, n, id) => |c| == 7 && c[0] == sync && Get16(c[1..]) == n && Get32(c[3..]) == id
    case Rdw(sync, n, id, v, t) =>
      && |c| >= 7 && c[0] == sync && Get16(c[1..]) == n && Get32(c[3..]) == id
      && (v.Two? ==> |c| == 12) && VariationAt(c[7..], v)
      && (sync == 0x06 && v.One? ==> TodoAt(c[23..], t))
      && (sync == 0x06 && v.Three? ==> TodoAt(c[38..], t))
    case Rds(sync, status, nulls) => |c| == 4 && c[0] == sync && c[1] == status && c[2] == nulls.0 && c[3] == nulls.1
    case Rqt(zeros) => |c| == 3 && c[0] == zeros.0 && c[1] == zeros.1 && c[2] == zeros.2
    case Rlr(sync) => |c| == 1 && c[0] == sync
    case Rge(n, path) => |c| == 2 + n as int && Get16(c) == n && c[2..] == path[..n]
  }

  predicate VariationAt(c: Bytes, v: RdwVariation) {
    match v
    case One(padding) => |c| >= 16 && c[..16] == padding
    case Two(attribute) => |c| >= 5 && Get32(c) == 1 && c[4] == attribute
    case Three(attribute, created, modified, id) =>
      && |c| >= 31 && Get32(c) == 1 && c[4] == attribute && Get32(c[5..]) == 5 && c[9..14] == created
      && Get32(c[14..]) == 5 && c[18..23] == modified && Get32(c[23..]) == 4 && Get32(c[27..]) == id
    case Unknown(_) => true
  }

  predicate TodoAt(c: Bytes, t: Todo)
    requires Backed(t)
  {
    var k: nat := 4 + t.categoryLen;
    && |c| >= k + 53 && Get32(c) == 4 && c[4..k] == t.category[..t.categoryLen]
    && Get32(c[k..]) == 5 && c[k + 4..k + 9] == t.startDate
    && Get32(c[k + 9..]) == 5 && c[k + 13..k + 18] == t.dueDate
    && Get32(c[k + 18..]) == 5 && c[k + 22..k + 27] == t.completedDate
    && Get32(c[k + 27..]) == 1 && c[k + 31] == t.progress
    && Get32(c[k + 32..]) == 1 && c[k + 36] == t.priority
    && Get32(c[k + 37..]) == t.descriptionLen && c[k + 41..k + 45] == t.description[..4]
    && Get32(c[k + 45..]) == t.notesLen && c[k + 49..k + 53] == t.notes[..4]
  }

  lemma SizedFirst(n: U32, data: Bytes, rest: Bytes)
    ensures var c := Put32(n) + data + rest;
            Get32(c) == n && |c| >= 4 + |data| && c[4..4 + |data|] == data && c[4 + |data|..] == rest
  {
    assert Put32(n) + data + rest == Put32(n) + (data + rest);
    GetFromFront(Put32(n), data + rest);
  }

  lemma NextSized(c: Bytes, at: nat, n: U32, data: Bytes, rest: Bytes)
    requires at <= |c| && c[at..] == Put32(n) + data + rest
    ensures |c| >= at + 4 + |data| && Get32(c[at..]) == n && c[at + 4..at + 4 + |data|] == data
    ensures c[at + 4 + |data|..] == rest
  {
    SizedFirst(n, data, rest);
    var d := c[at..];
    assert d[4..4 + |data|] == c[at + 4..at + 4 + |data|] && d[4 + |data|..] == c[at + 4 + |data|..];
  }

  /** Left to right, piece by piece. */
  lemma Pieces(a: Bytes, b: Bytes, c: Bytes, d: Bytes, rest: Bytes)
    ensures a + b + c + d + rest == a + (b + (c + (d + rest)))
  {
  }

  lemma TodoCarried(c: Bytes, t: Todo)
    requires Backed(t) && TodoBytes(t) <= c
    ensures TodoAt(c, t)
  {
    hide Put32, Get32;
    var rest := c[|TodoBytes(t)|..];
    var p1, p2 := Put32(4) + t.category[..t.categoryLen], Put32(5) + t.startDate;
    var p3, p4 := Put32(5) + t.dueDate, Put32(5) + t.completedDate;
    var p5, p6 := Put32(1) + [t.progress], Put32(1) + [t.priority];
    var p7, p8 := Put32(t.descriptionLen) + t.description[..4], Put32(t.notesLen) + t.notes[..4];
    assert c == TodoBytes(t) + rest;
    var later := p5 + (p6 + (p7 + (p8 + rest)));
    Pieces(p1, p2, p3, p4, later);
    Pieces(p5, p6, p7, p8, rest);
    assert p1 + p2 + p3 + p4 + p5 + p6 + p7 + p8 + rest == (p1 + p2 + p3 + p4) + (p5 + p6 + p7 + p8 + rest);
    assert c == p1 + (p2 + (p3 + (p4 + later)));
    var k: nat := 4 + t.categoryLen;
    assert c[0..] == c;
    NextSized(c, 0, 4, t.category[..t.categoryLen], p2 + (p3 + (p4 + later)));
    NextSized(c, k, 5, t.startDate, p3 + (p4 + later));
    NextSized(c, k + 9, 5, t.dueDate, p4 + later);
    NextSized(c, k + 18, 5, t.completedDate, later);
    NextSized(c, k + 27, 1, [t.progress], p6 + (p7 + (p8 + rest)));
    NextSized(c, k + 32, 1, [t.priority], p7 + (p8 + rest));
    NextSized(c, k + 37, t.descriptionLen, t.description[..4], p8 + rest);
    NextSized(c, k + 45, t.notesLen, t.notes[..4], rest);
  }

  lemma ThreeCarried(c: Bytes, v: RdwVariation)
    requires v.Three? && |v.created| == |v.modified| == 5 && VariationBytes(v) <= c
    ensures VariationAt(c, v)
  {
    hide Put32, Get32;
    var rest := c[|VariationBytes(v)|..];
    var p1, p2 := Put32(1) + [v.attribute3], Put32(5) + v.created;
    var p3, p4 := Put32(5) + v.modified, Put32(4) + Put32(v.innerId);
    assert c == VariationBytes(v) + rest && c[0..] == c;
    Pieces(p1, p2, p3, p4, rest);
    NextSized(c, 0, 1, [v.attribute3], p2 + (p3 + (p4 + rest)));
    NextSized(c, 5, 5, v.created, p3 + (p4 + rest));
    NextSized(c, 14, 5, v.modified, p4 + rest);
    NextSized(c, 23, 4, Put32(v.innerId), rest);
    LastNumber(c, 27, v.innerId, rest);
  }

  lemma LastNumber(c: Bytes, at: nat, n: U32, rest: Bytes)
    requires at + 4 <= |c| && c[at..at + 4] == Put32(n) && c[at + 4..] == rest
    ensures Get32(c[at..]) == n
  {
    assert c[at..] == c[at..at + 4] + c[at + 4..];
    GetFromFront(Put32(n), rest);
  }

  lemma VariationCarried(c: Bytes, v: RdwVariation)
    requires (v.One? ==> |v.padding| == 16) && (v.Three? ==> |v.created| == |v.modified| == 5)
    requires VariationBytes(v) <= c
    ensures VariationAt(c, v)
  {
    match v {
      case One(_) =>
      case Two(attribute) =>
        var rest := c[5..];
        assert c == VariationBytes(v) + rest && c[0..] == c;
        NextSized(c, 0, 1, [attribute], rest);
      case Three(_, _, _, _) => ThreeCarried(c, v);
      case Unknown(_) =>
    }
  }

  lemma IdsCarried(c: Bytes, sync: Byte, n: U16, id: U32)
    requires IdBytes(sync, n, id) <= c
    ensures |c| >= 7 && c[0] == sync && Get16(c[1..]) == n && Get32(c[3..]) == id
  {
    var rest := c[7..];
    assert c == IdBytes(sync, n, id) + rest;
    assert c[1..] == Put16(n) + (Put32(id) + rest) && c[3..] == Put32(id) + rest;
    GetFromFront(Put16(n), Put32(id) + rest);
    GetFromFront(Put32(id), rest);
  }

  lemma LogCarried(q: Request, c: Bytes)
    requires q.Rms? && Shaped(q) && |c| == ContSize(q) && RequestBytes(q) <= c
    ensures Carries(c, q)
  {
    var n, log := q.logSize, q.log;
    if n <= 38 {
      var zeros: Bytes := seq(RMS_LOG_SIZE - n, _ => 0);
      assert c == Put16(n) + (log[..n] + zeros);
      GetFromFront(Put16(n), log[..n] + zeros);
    }
  }

  /** The bytes a writer stores, and the size its content is given, put everything in its place. */
  lemma ContentCarries(q: Request, c: Bytes)
    requires Sendable(q) && |c| == ContSize(q) && RequestBytes(q) <= c
    ensures Carries(c, q)
  {
    hide TodoAt, VariationAt, TodoBytes, VariationBytes, IdBytes, TodoLength;
    var w := RequestBytes(q);
    match q {
      case Rms(_, _) => LogCarried(q, c);
      case Rdr(sync, n, id) => IdsCarried(c, sync, n, id);
      case Rdd(sync, n, id) => IdsCarried(c, sync, n, id);
      case Rdw(sync, n, id, v, t) => RdwCarried(q, c);
      case Rge(n, path) =>
        assert c == w;
        GetFromFront(Put16(n), path[..n]);
      case _ =>
    }
  }

  lemma RdwCarried(q: Request, c: Bytes)
    requires q.Rdw? && Shaped(q) && |c| == ContSize(q) && RequestBytes(q) <= c
    ensures Carries(c, q)
  {
    hide TodoAt, VariationAt, TodoBytes, IdBytes, TodoLength;
    var ids, vs := IdBytes(q.rdwSync, q.rdwCount, q.rdwId), VariationBytes(q.variation);
    assert |ids| == 7 by { IdBytesLength(q.rdwSync, q.rdwCount, q.rdwId); }
    assert c[..7] == ids && c[7..7 + |vs|] == vs;
    IdsCarried(c, q.rdwSync, q.rdwCount, q.rdwId);
    VariationCarried(c[7..], q.variation);
    if q.rdwSync == 0x06 && (q.variation.One? || q.variation.Three?) {
      assert TodoBytes(q.todo) <= c[7 + |vs|..];
      TodoCarried(c[7 + |vs|..], q.todo);
    }
  }

  lemma IdBytesLength(sync: Byte, n: U16, id: U32)
    ensures |IdBytes(sync, n, id)| == 7
  {
  }

  /** A request for one item, byte by byte: three letters, the sync type, the count 1, the id, and the sum. */
  predicate IdFrame(w: Bytes, a: char, b: char, c: char, sync: Byte, id: int) {
    && |w| == 27 && w[..15] == [0, 0, 0, 0, 0, 0x96, 1, 1, 0x0c, 7, 0, 0, 0, 10, 0]
    && w[15..18] == [a as int, b as int, c as int] && w[18] == sync && w[19] == 1 && w[20] == 0
    && w[21] as int + 256 * w[22] as int + 65536 * w[23] as int + 16777216 * w[24] as int == id
    && w[25] as int + 256 * w[26] as int == ByteSum(w[15..25]) % 65536
  }

  lemma IdFrameSpelled(tag: Tag, content: Content16, a: char, b: char, c: char, sync: Byte, id: U32)
    requires Letters(tag, a, b, c) && |content| == 7
    requires content[0] == sync && Get16(content[1..]) == 1 && Get32(content[3..]) == id
    ensures IdFrame(EncodeFrame(Net.RequestFrame(tag, content)), a, b, c, sync, id)
  {
    hide EncodeFrame, Net.RequestFrame;
    var w := EncodeFrame(Net.RequestFrame(tag, content));
    RequestSpelled(tag, content);
    assert w[18..25] == content && w[18] == content[0];
    assert forall k :: 0 <= k < 7 ==> w[18 + k] == content[k];
    assert w[15..18] == [a as int, b as int, c as int];
    assert |w[9..]| == 18 && w[9..][0] == w[9] && w[9..][1] == w[10];
    LittleEndian(w[9..]);
    LittleEndian(w[13..]);
    LittleEndian(content[1..]);
    LittleEndian(content[3..]);
    LittleEndian(w[25..]);
    assert w[11] == w[11..13][0] && w[12] == w[11..13][1];
    assert forall k :: 0 <= k < 9 ==> w[k] == w[..9][k];
  }
}
