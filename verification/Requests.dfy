/** The bodies of the desktop's requests: the length the code announces for each, and the
    bytes its writer actually stores. */
module Requests {
  import opened Wire
  import opened Codecs
  import opened Memory
  import opened Replies

  const SYNC_TYPE_CALENDAR: Byte := 0x01
  const SYNC_TYPE_TODO: Byte := 0x06
  const SYNC_TYPE_ADDRESS: Byte := 0x07

  const RET_UNK_TYPE := -10
  const RET_UNK_VAR := -12

  /** The parts of a todo item that a record carries. Each variable-length part is a recorded
      length beside the bytes in memory behind its pointer. */
  datatype Todo = Todo(
    categoryLen: U32, category: Bytes,
    startDate: Bytes, dueDate: Bytes, completedDate: Bytes,
    progress: Byte, priority: Byte,
    descriptionLen: U32, description: Bytes,
    notesLen: U32, notes: Bytes)

  /** The memory the writer copies from is there: dates have five bytes, and the description
      and notes behind their pointers have the four the writer takes and all they record. */
  predicate Backed(t: Todo) {
    && |t.startDate| == |t.dueDate| == |t.completedDate| == 5
    && t.categoryLen <= |t.category|
    && t.descriptionLen <= |t.description| && 4 <= |t.description|
    && t.notesLen <= |t.notes| && 4 <= |t.notes|
  }

  datatype RdwVariation =
    | One(padding: Bytes)
    | Two(attribute: Byte)
    | Three(attribute3: Byte, created: Bytes, modified: Bytes, innerId: U32)
    | Unknown(code: Byte)

  datatype Request =
    | Bare
    | Rrl(pwSize: Byte, pw: Bytes, pwBlock: Ptr)
    | Rmg(rmgUnknown: Byte, rmgSync: Byte)
    | Rms(logSize: U16, log: Bytes)
    | Rts(date: Bytes)
    | Rdi(rdiSync: Byte, rdiUnknown: Byte)
    | Rsy(rsySync: Byte, rsyUnknown: Byte)
    | Rss(uk1: Byte, rssSync: Byte, uk2: Byte)
    | Rdr(rdrSync: Byte, rdrCount: U16, rdrId: U32)
    | Rdd(rddSync: Byte, rddCount: U16, rddId: U32)
    | Rdw(rdwSync: Byte, rdwCount: U16, rdwId: U32, variation: RdwVariation, todo: Todo)
    | Rds(rdsSync: Byte, status: Byte, nulls: (Byte, Byte))
    | Rqt(zeros: (Byte, Byte, Byte))
    | Rlr(rlrSync: Byte)
    | Rge(pathLen: U16, path: Bytes)

  const RMS_LOG_SIZE := 38
  const RTS_DATE_LEN := 14

  /** The fixed-size members have their sizes and the pointers their memory. */
  predicate Shaped(q: Request) {
    match q
    case Rrl(n, pw, _) => n <= |pw|
    case Rms(_, log) => |log| == RMS_LOG_SIZE
    case Rts(date) => |date| == RTS_DATE_LEN
    case Rge(n, path) => n <= |path|
    case Rdw(sync, _, _, v, t) =>
      && (v.Unknown? ==> v.code !in [1, 2, 3])
      && (v.One? ==> |v.padding| == 16)
      && (v.Three? ==> |v.created| == |v.modified| == 5)
      && ((v.One? || v.Three?) && sync == SYNC_TYPE_TODO ==> Backed(t))
    case _ => true
  }

  // The lengths the code announces.

  function TodoLength(t: Todo): int {
    4 + t.categoryLen + (4 + 5) + (4 + 5) + (4 + 5) + (4 + 1) + (4 + 1) + 4 + t.descriptionLen + 4 + t.notesLen
  }

  function RdwLength(q: Request): int
    requires q.Rdw?
  {
    match q.variation
    case One(_) => if q.rdwSync == SYNC_TYPE_TODO then 7 + 16 + TodoLength(q.todo) else RET_UNK_TYPE
    case Two(_) => 7 + 4 + 1
    case Three(_, _, _, _) =>
      if q.rdwSync == SYNC_TYPE_TODO then 7 + (4 + 1) + (4 + 5) + (4 + 5) + (4 + 4) + TodoLength(q.todo)
      else RET_UNK_TYPE
    case Unknown(_) => RET_UNK_VAR
  }

  function RequestLength(q: Request): int {
    match q
    case Bare => 0
    case Rrl(n, _, _) => 1 + n
    case Rmg(_, _) => 2
    case Rms(_, _) => 2 + RMS_LOG_SIZE
    case Rts(_) => RTS_DATE_LEN
    case Rdi(_, _) => 2
    case Rsy(_, _) => 2
    case Rss(_, _, _) => 3
    case Rdr(_, _, _) => 7
    case Rdd(_, _, _) => 7
    case Rdw(_, _, _, _, _) => RdwLength(q)
    case Rds(_, _, _) => 4
    case Rqt(_) => 3
    case Rlr(_) => 1
    case Rge(n, _) => 2 + n
  }

  // What the writers store.

  /** The todo writer: the size of the length field where the category length belongs, and
      four bytes of description and notes whatever their lengths. */
  function TodoBytes(t: Todo): Bytes
    requires Backed(t)
  {
    TodoHead(t) + (Put32(t.descriptionLen) + t.description[..4]) + (Put32(t.notesLen) + t.notes[..4])
  }

  function TodoHead(t: Todo): Bytes
    requires Backed(t)
  {
    Put32(4) + t.category[..t.categoryLen]
    + (Put32(5) + t.startDate) + (Put32(5) + t.dueDate) + (Put32(5) + t.completedDate)
    + (Put32(1) + [t.progress]) + (Put32(1) + [t.priority])
  }

  function IdBytes(sync: Byte, count: U16, id: U32): Bytes {
    [sync] + Put16(count) + Put32(id)
  }

  function VariationBytes(v: RdwVariation): Bytes {
    match v
    case One(padding) => padding
    case Two(attribute) => Put32(1) + [attribute]
    case Three(attribute, created, modified, id) =>
      (Put32(1) + [attribute]) + (Put32(5) + created) + (Put32(5) + modified) + (Put32(4) + Put32(id))
    case Unknown(_) => []
  }

  function RequestBytes(q: Request): Bytes
    requires Shaped(q)
  {
    match q
    case Bare => []
    case Rrl(n, pw, _) => [n] + pw[..n]
    case Rmg(unknown, sync) => [unknown, sync]
    case Rms(n, log) => if n > RMS_LOG_SIZE then [] else Put16(n) + log[..n] + seq(RMS_LOG_SIZE - n, _ => 0)
    case Rts(date) => date
    case Rdi(sync, unknown) => [sync, unknown]
    case Rsy(sync, unknown) => [sync, unknown]
    case Rss(uk1, sync, uk2) => [uk1, sync, uk2]
    case Rdr(sync, n, id) => IdBytes(sync, n, id)
    case Rdd(sync, n, id) => IdBytes(sync, n, id)
    case Rdw(sync, n, id, v, t) =>
      IdBytes(sync, n, id) + VariationBytes(v)
      + if (v.One? || v.Three?) && sync == SYNC_TYPE_TODO then TodoBytes(t) else []
    case Rds(sync, status, nulls) => [sync, status, nulls.0, nulls.1]
    case Rqt(zeros) => [zeros.0, zeros.1, zeros.2]
    case Rlr(sync) => [sync]
    case Rge(n, path) => Put16(n) + path[..n]
  }

  /** When a writer stores exactly as many bytes as its length function announced. */
  predicate Measured(q: Request) {
    match q
    case Rms(n, _) => n <= RMS_LOG_SIZE
    case Rdw(sync, _, _, v, t) =>
      v.Two? || ((v.One? || v.Three?) && sync == SYNC_TYPE_TODO && t.descriptionLen + t.notesLen == 8)
    case _ => true
  }

  lemma WriterMeetsLength(q: Request)
    requires Shaped(q)
    ensures |RequestBytes(q)| == RequestLength(q) <==> Measured(q)
  {
  }

  // Reading a todo record back: eight values, each behind a 32-bit length.

  const TODO_PARTS := 8

  function TodoParts(t: Todo): (parts: seq<Bytes32>)
    requires Backed(t)
    ensures |parts| == TODO_PARTS
  {
    [t.category[..t.categoryLen], t.startDate, t.dueDate, t.completedDate, [t.progress], [t.priority],
     t.description[..t.descriptionLen], t.notes[..t.notesLen]]
  }

  /** The record the length function measures. */
  function TodoRecord(t: Todo): Bytes
    requires Backed(t)
  {
    PutAll(PutValue, TodoParts(t))
  }
}
