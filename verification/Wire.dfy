/** Bytes, the two little-endian integer widths the protocol uses, and the short
    character codes that name message types and item fields. */
module Wire {

  type Byte = n: int | 0 <= n < 0x100
  type U16 = n: int | 0 <= n < 0x1_0000
  type U32 = n: int | 0 <= n < 0x1_0000_0000
  type Bytes = seq<Byte>

  /** What a decoder makes of the front of a byte string: the value and what follows it. */
  datatype Parse<+T> = Bad | Good(val: T, rest: Bytes)

  function Put16(n: U16): (b: Bytes)
    ensures |b| == 2 && Get16(b) == n
  {
    [n % 0x100, n / 0x100]
  }

  function Get16(b: Bytes): U16
    requires |b| >= 2
  {
    b[0] as int + 0x100 * b[1] as int
  }

  function Put32(n: U32): (b: Bytes)
    ensures |b| == 4 && Get32(b) == n
  {
    Put16(n % 0x1_0000) + Put16(n / 0x1_0000)
  }

  function Get32(b: Bytes): U32
    requires |b| >= 4
  {
    Get16(b) as int + 0x1_0000 * Get16(b[2..]) as int
  }

  lemma Put16Get16(b: Bytes)
    requires |b| >= 2
    ensures Put16(Get16(b)) == b[..2]
  {
  }

  lemma Put32Get32(b: Bytes)
    requires |b| >= 4
    ensures Put32(Get32(b)) == b[..4]
  {
    var lo, hi := Get16(b), Get16(b[2..]);
    assert Get32(b) % 0x1_0000 == lo && Get32(b) / 0x1_0000 == hi;
    Put16Get16(b);
    Put16Get16(b[2..]);
    assert b[..2] + b[2..][..2] == b[..4];
  }

  /** Reading an integer looks only at the bytes it occupies. */
  lemma GetFromFront(b: Bytes, rest: Bytes)
    ensures |b| >= 2 ==> Get16(b + rest) == Get16(b)
    ensures |b| >= 4 ==> Get32(b + rest) == Get32(b)
  {
    if |b| >= 4 {
      assert (b + rest)[2..] == b[2..] + rest;
    }
  }

  type Ascii = c: char | c as int < 0x100

  /** A three-letter message type. */
  datatype Tag = Tag(a: Ascii, b: Ascii, c: Ascii)

  /** A four-letter field abbreviation. */
  datatype Abrev = Abrev(a: Ascii, b: Ascii, c: Ascii, d: Ascii)

  function TagBytes(t: Tag): (b: Bytes)
    ensures |b| == 3 && GetTag(b) == t
  {
    [t.a as int, t.b as int, t.c as int]
  }

  function GetTag(b: Bytes): Tag
    requires |b| >= 3
  {
    Tag(b[0] as char, b[1] as char, b[2] as char)
  }

  function AbrevBytes(t: Abrev): (b: Bytes)
    ensures |b| == 4 && GetAbrev(b) == t
  {
    [t.a as int, t.b as int, t.c as int, t.d as int]
  }

  function GetAbrev(b: Bytes): Abrev
    requires |b| >= 4
  {
    Abrev(b[0] as char, b[1] as char, b[2] as char, b[3] as char)
  }

  // Requests, sent by the desktop.
  const RAY := Tag('R', 'A', 'Y')
  const RIG := Tag('R', 'I', 'G')
  const RRL := Tag('R', 'R', 'L')
  const RMG := Tag('R', 'M', 'G')
  const RMS := Tag('R', 'M', 'S')
  const RTG := Tag('R', 'T', 'G')
  const RTS := Tag('R', 'T', 'S')
  const RDI := Tag('R', 'D', 'I')
  const RSY := Tag('R', 'S', 'Y')
  const RSS := Tag('R', 'S', 'S')
  const RDR := Tag('R', 'D', 'R')
  const RDW := Tag('R', 'D', 'W')
  const RDD := Tag('R', 'D', 'D')
  const RDS := Tag('R', 'D', 'S')
  const RQT := Tag('R', 'Q', 'T')
  const RLR := Tag('R', 'L', 'R')
  const RGE := Tag('R', 'G', 'E')

  // Replies, sent by the device.
  const AAY := Tag('A', 'A', 'Y')
  const AIG := Tag('A', 'I', 'G')
  const AMG := Tag('A', 'M', 'G')
  const ATG := Tag('A', 'T', 'G')
  const AEX := Tag('A', 'E', 'X')
  const ANG := Tag('A', 'N', 'G')
  const ADI := Tag('A', 'D', 'I')
  const ADR := Tag('A', 'D', 'R')
  const ASY := Tag('A', 'S', 'Y')
  const ADW := Tag('A', 'D', 'W')
}
