/**
 * The message frame shared by coordinator and node (src/common/network/framing/tcp.hpp):
 * a packed 32-byte header, a length-delimited body and an exclusive-or checksum.
 */
module Framing {
  import opened Bytes

  const MAGIC_NUMBER: u32 := 0x4D50_4345
  const PROTOCOL_VERSION: u16 := 1
  const MAX_BODY_SIZE: u32 := 1024 * 1024
  const HEADER_SIZE := 32

  datatype ValidationResult =
    | OK
    | InvalidMagic
    | InvalidVersion
    | BodyTooLarge
    | BodySizeMismatch
    | ChecksumMismatch

  datatype MessageHeader = MessageHeader(
    magic: u32,
    version: u16,
    messageType: u16,
    bodyLength: u32,
    checksum: Image32,
    timestamp: u64,
    requestId: u64)
  {
    function ValidateBasic(): ValidationResult {
      if magic != MAGIC_NUMBER then InvalidMagic
      else if version != PROTOCOL_VERSION then InvalidVersion
      else if bodyLength > MAX_BODY_SIZE then BodyTooLarge
      else OK
    }
  }

  datatype NetworkMessage = NetworkMessage(header: MessageHeader, body: seq<byte>) {
    function Validate(): ValidationResult {
      if header.ValidateBasic() != OK then header.ValidateBasic()
      else if |body| != header.bodyLength then BodySizeMismatch
      else if Checksum(body) != header.checksum then ChecksumMismatch
      else OK
    }

    /** The header announces the body it travels with. */
    predicate Consistent() {
      header.bodyLength == |body|
    }

    function Id(): u64 {
      header.requestId
    }

    function WithId(id: u64): (m: NetworkMessage) {
      this.(header := header.(requestId := id))
    }
  }

  /** The constructor from a type and a payload: the 32-bit length field is the truncated payload size. */
  function MakeMessage(messageType: u16, data: seq<byte>): NetworkMessage {
    NetworkMessage(
      MessageHeader(MAGIC_NUMBER, PROTOCOL_VERSION, messageType, |data| % 0x1_0000_0000, Checksum(data), 0, 0),
      data)
  }

  /** A constructed message passes validation exactly when its payload is at most one megabyte. */
  lemma MadeMessageValid(messageType: u16, data: seq<byte>, id: u64)
    ensures MakeMessage(messageType, data).WithId(id).Validate() == OK <==> |data| <= MAX_BODY_SIZE
    ensures |data| < 0x1_0000_0000 ==> MakeMessage(messageType, data).WithId(id).Consistent()
  {
    var m := MakeMessage(messageType, data).WithId(id);
    assert m.header.bodyLength == |data| % 0x1_0000_0000;
  }

  // ---------- checksum ----------

  /** Exclusive or of the bytes whose index is congruent to j modulo 4. */
  function Lane(data: seq<byte>, j: nat): byte
    requires j < 4
  {
    if data == [] then 0
    else
      var last := |data| - 1;
      if last % 4 == j then XorByte(Lane(data[..last], j), data[last]) else Lane(data[..last], j)
  }

  /** The checksum of a body: the word whose memory image is its four lanes. */
  function Checksum(data: seq<byte>): Image32 {
    Image32(Lane(data, 0), Lane(data, 1), Lane(data, 2), Lane(data, 3))
  }

  function ByteAt(c: seq<byte>, j: nat): byte {
    if j < |c| then c[j] else 0
  }

  /** memcpy of at most four bytes into a zeroed 32-bit word. */
  function Chunk(c: seq<byte>): Image32
    requires |c| <= 4
  {
    Image32(ByteAt(c, 0), ByteAt(c, 1), ByteAt(c, 2), ByteAt(c, 3))
  }

  function Upto(data: seq<byte>, i: nat): seq<byte> {
    if i < |data| then data[..i] else data
  }

  /** The bytes at j, j + 4, j + 8 and so on, combined from the front. */
  function Column(data: seq<byte>, j: nat): byte
    decreases |data| - j
  {
    if j >= |data| then 0 else XorByte(data[j], Column(data, j + 4))
  }

  lemma {:induction false} ColumnSnoc(p: seq<byte>, b: byte, j: nat)
    ensures Column(p + [b], j) ==
            if j <= |p| && (|p| - j) % 4 == 0 then XorByte(Column(p, j), b) else Column(p, j)
    decreases |p| - j
  {
    hide XorByte;
    if j < |p| {
      ColumnSnoc(p, b, j + 4);
      if j + 4 <= |p| {
        assert (|p| - j) % 4 == (|p| - (j + 4)) % 4;
      }
      XorAssociative(p[j], Column(p, j + 4), b);
    } else if j == |p| {
      assert Column(p + [b], j + 4) == 0;
      XorLaws(b, 0);
    }
  }

  lemma {:induction false} LaneIsColumn(data: seq<byte>, j: nat)
    requires j < 4
    ensures Lane(data, j) == Column(data, j)
  {
    hide XorByte;
    if data != [] {
      var last := |data| - 1;
      LaneIsColumn(data[..last], j);
      ColumnSnoc(data[..last], data[last], j);
      assert data == data[..last] + [data[last]];
    }
  }

  /**
   * Validity in terms of the bytes alone: the right magic number and version, the announced size, at most
   * one megabyte, and in byte j of the checksum the exclusive or of every fourth body byte from j on.
   */
  lemma ValidExactly(m: NetworkMessage)
    ensures m.Validate() == OK <==>
            && m.header.magic == 0x4D50_4345 && m.header.version == 1
            && m.header.bodyLength == |m.body| <= 1_048_576
            && forall j :: 0 <= j < 4 ==> m.header.checksum.Memory()[j] == Column(m.body, j)
  {
    hide Lane, Column;
    LaneIsColumn(m.body, 0);
    LaneIsColumn(m.body, 1);
    LaneIsColumn(m.body, 2);
    LaneIsColumn(m.body, 3);
    var image := m.header.checksum.Memory();
    assert image == [m.header.checksum.b0, m.header.checksum.b1, m.header.checksum.b2, m.header.checksum.b3];
    if forall j :: 0 <= j < 4 ==> image[j] == Column(m.body, j) {
      assert image[0] == Column(m.body, 0) && image[1] == Column(m.body, 1);
      assert image[2] == Column(m.body, 2) && image[3] == Column(m.body, 3);
    }
  }

  /** Why a message is refused: the first of these defects that it has, whatever else is wrong with it. */
  lemma FirstDefect(m: NetworkMessage)
    ensures m.header.magic != 0x4D50_4345 ==> m.Validate() == InvalidMagic
    ensures m.header.magic == 0x4D50_4345 ==>
              && (m.header.version != 1 ==> m.Validate() == InvalidVersion)
              && (m.header.version == 1 && m.header.bodyLength > 1_048_576 ==> m.Validate() == BodyTooLarge)
              && (m.header.version == 1 && m.header.bodyLength <= 1_048_576 ==>
                    (m.Validate() == BodySizeMismatch <==> m.header.bodyLength != |m.body|))
  {
    hide Checksum;
  }

  /** The four-byte-stride loop computes the lane-wise checksum, whatever the size of the last chunk. */
  method ComputeChecksum(data: seq<byte>) returns (checksum: Image32)
    ensures checksum == Checksum(data)
  {
    hide Checksum, Upto, Chunk;
    checksum := Image32(0, 0, 0, 0);
    ChecksumOfNothing(data);
    var i := 0;
    while i < |data|
      invariant 0 <= i && i % 4 == 0
      invariant checksum == Checksum(Upto(data, i))
    {
      var remaining := if 4 <= |data| - i then 4 else |data| - i;
      var chunk := Chunk(data[i..i + remaining]);
      ChecksumStep(data, i, remaining);
      checksum := checksum.Xor(chunk);
      i := i + 4;
    }
    UptoAll(data, i);
  }

  lemma ChecksumOfNothing(data: seq<byte>)
    ensures Checksum(Upto(data, 0)) == Image32(0, 0, 0, 0)
  {
    assert Upto(data, 0) == [];
  }

  lemma UptoAll(data: seq<byte>, i: nat)
    requires i >= |data|
    ensures Upto(data, i) == data
  {
  }

  lemma LaneSnoc(p: seq<byte>, b: byte, j: nat)
    requires j < 4
    ensures Lane(p + [b], j) == if |p| % 4 == j then XorByte(Lane(p, j), b) else Lane(p, j)
  {
    assert (p + [b])[..|p|] == p;
  }

  lemma {:induction false} LaneAppend(p: seq<byte>, c: seq<byte>, j: nat)
    requires |p| % 4 == 0 && |c| <= 4 && j < 4
    ensures Lane(p + c, j) == if j < |c| then XorByte(Lane(p, j), c[j]) else Lane(p, j)
  {
    hide Lane, XorByte;
    if c == [] {
      assert p + c == p;
    } else {
      var k := |c| - 1;
      var q := p + c[..k];
      LaneAppend(p, c[..k], j);
      assert p + c == q + [c[k]];
      SameResidue(|p|, k);
      LaneSnoc(q, c[k], j);
    }
  }

  lemma AbsorbLane(p: seq<byte>, c: seq<byte>, j: nat)
    requires |p| % 4 == 0 && |c| <= 4 && j < 4
    ensures Lane(p + c, j) == XorByte(Lane(p, j), ByteAt(c, j))
  {
    LaneAppend(p, c, j);
    XorLaws(Lane(p, j), 0);
  }

  lemma AbsorbChunk(p: seq<byte>, c: seq<byte>)
    requires |p| % 4 == 0 && |c| <= 4
    ensures Checksum(p + c) == Checksum(p).Xor(Chunk(c))
  {
    AbsorbLane(p, c, 0);
    AbsorbLane(p, c, 1);
    AbsorbLane(p, c, 2);
    AbsorbLane(p, c, 3);
  }

  ghost predicate SameLanes(a: seq<byte>, b: seq<byte>) {
    forall j: nat :: j < 4 ==> Lane(a, j) == Lane(b, j)
  }

  lemma ChecksumStep(data: seq<byte>, i: nat, remaining: nat)
    requires i < |data| && i % 4 == 0
    requires remaining == if 4 <= |data| - i then 4 else |data| - i
    ensures Checksum(Upto(data, i + 4)) == Checksum(Upto(data, i)).Xor(Chunk(data[i..i + remaining]))
  {
    AbsorbChunk(Upto(data, i), data[i..i + remaining]);
    assert Upto(data, i) + data[i..i + remaining] == Upto(data, i + 4);
  }

  lemma ChecksumLanes(a: seq<byte>, b: seq<byte>)
    ensures Checksum(a) == Checksum(b) <==> SameLanes(a, b)
  {
    if SameLanes(a, b) {
      assert Lane(a, 0) == Lane(b, 0) && Lane(a, 1) == Lane(b, 1);
      assert Lane(a, 2) == Lane(b, 2) && Lane(a, 3) == Lane(b, 3);
    }
  }

  lemma {:induction false} LaneDiffers(a: seq<byte>, b: seq<byte>, k: nat)
    requires |a| == |b| && k < |a| && a[k] != b[k]
    requires forall i :: 0 <= i < |a| && i % 4 == k % 4 && i != k ==> a[i] == b[i]
    ensures Lane(a, k % 4) != Lane(b, k % 4)
  {
    var last, j := |a| - 1, k % 4;
    if last == k {
      LaneSame(a[..last], b[..last], j);
      XorCancel(a[k], b[k], Lane(a[..last], j));
      XorLaws(a[k], Lane(a[..last], j));
      XorLaws(b[k], Lane(a[..last], j));
    } else {
      LaneDiffers(a[..last], b[..last], k);
      if last % 4 == j {
        XorCancel(Lane(a[..last], j), Lane(b[..last], j), a[last]);
      }
    }
  }

  lemma {:induction false} LaneSame(a: seq<byte>, b: seq<byte>, j: nat)
    requires |a| == |b| && j < 4
    requires forall i :: 0 <= i < |a| && i % 4 == j ==> a[i] == b[i]
    ensures Lane(a, j) == Lane(b, j)
  {
    if a != [] {
      LaneSame(a[..|a| - 1], b[..|b| - 1], j);
    }
  }

  /** Changing bytes inside one aligned four-byte chunk of a valid message is always detected. */
  lemma ChunkCorruptionDetected(m: NetworkMessage, body: seq<byte>, chunk: nat)
    requires m.Validate() == OK
    requires |body| == |m.body| && body != m.body
    requires forall i :: 0 <= i < |body| && i / 4 != chunk ==> body[i] == m.body[i]
    ensures m.(body := body).Validate() == ChecksumMismatch
  {
    var k :| 0 <= k < |body| && body[k] != m.body[k];
    LaneDiffers(body, m.body, k);
    ChecksumLanes(body, m.body);
  }

  // ---------- what the checksum cannot see ----------

  /** What a change does: the bytewise exclusive or of two bodies, the shorter one padded with zeros. */
  function Difference(a: seq<byte>, b: seq<byte>): (d: seq<byte>)
    ensures |d| == if |a| < |b| then |b| else |a|
  {
    seq(if |a| < |b| then |b| else |a|, i requires 0 <= i => XorByte(ByteAt(a, i), ByteAt(b, i)))
  }

  predicate LanesVanish(d: seq<byte>) {
    forall j: nat :: j < 4 ==> Lane(d, j) == 0
  }

  /** The lanes of a difference are the differences of the lanes. */
  lemma {:induction false} LaneOfDifference(a: seq<byte>, b: seq<byte>, j: nat)
    requires |a| == |b| && j < 4
    ensures Lane(Difference(a, b), j) == XorByte(Lane(a, j), Lane(b, j))
    decreases |a|
  {
    hide XorByte;
    if a == [] {
      XorLaws(0, 0);
    } else {
      var last := |a| - 1;
      var p, q := a[..last], b[..last];
      LaneOfDifference(p, q, j);
      assert Difference(a, b) == Difference(p, q) + [XorByte(a[last], b[last])];
      LaneSnoc(Difference(p, q), XorByte(a[last], b[last]), j);
      XorMedial(Lane(p, j), Lane(q, j), a[last], b[last]);
    }
  }

  function Zeros(n: nat): (z: seq<byte>)
    ensures |z| == n
  {
    seq(n, _ => 0)
  }

  lemma {:induction false} LanePadded(a: seq<byte>, n: nat, j: nat)
    requires j < 4
    ensures Lane(a + Zeros(n), j) == Lane(a, j)
    decreases n
  {
    hide XorByte;
    if n == 0 {
      assert a + Zeros(0) == a;
    } else {
      LanePadded(a, n - 1, j);
      assert a + Zeros(n) == (a + Zeros(n - 1)) + [0];
      LaneSnoc(a + Zeros(n - 1), 0, j);
      XorLaws(Lane(a, j), 0);
    }
  }

  lemma LaneOfAnyDifference(a: seq<byte>, b: seq<byte>, j: nat)
    requires j < 4
    ensures Lane(Difference(a, b), j) == XorByte(Lane(a, j), Lane(b, j))
  {
    hide Lane, XorByte;
    var n := if |a| < |b| then |b| else |a|;
    var p, q := a + Zeros(n - |a|), b + Zeros(n - |b|);
    assert Difference(a, b) == Difference(p, q);
    LaneOfDifference(p, q, j);
    LanePadded(a, n - |a|, j);
    LanePadded(b, n - |b|, j);
  }

  /** Two bodies of any lengths have the same checksum exactly when every lane of their difference is zero. */
  lemma ChecksumCollision(a: seq<byte>, b: seq<byte>)
    ensures Checksum(a) == Checksum(b) <==> LanesVanish(Difference(a, b))
  {
    hide Lane, Difference, XorByte, Checksum;
    ChecksumLanes(a, b);
    forall j: nat | j < 4
      ensures Lane(Difference(a, b), j) == 0 <==> Lane(a, j) == Lane(b, j)
    {
      LaneOfAnyDifference(a, b, j);
      XorIsZero(Lane(a, j), Lane(b, j));
    }
  }

  /**
   * What a receiver says to a changed body of a valid message: a change of length is always noticed, any
   * other change unless every lane of what was changed is zero.
   */
  lemma CorruptionDetectedExactly(m: NetworkMessage, body: seq<byte>)
    requires m.Validate() == OK
    ensures m.(body := body).Validate() ==
            if |body| != |m.body| then BodySizeMismatch
            else if LanesVanish(Difference(m.body, body)) then OK
            else ChecksumMismatch
  {
    hide Checksum, LanesVanish, Difference;
    ChecksumCollision(m.body, body);
  }

  lemma SameResidue(n: nat, k: nat)
    requires n % 4 == 0
    ensures (n + k) % 4 == k % 4
  {
  }

  lemma NoLane(j: nat)
    requires j < 4
    ensures Lane([], j) == 0
  {
  }

  /** After whole chunks the lanes of what follows are added. */
  lemma {:induction false} LaneConcat(p: seq<byte>, q: seq<byte>, j: nat)
    requires |p| % 4 == 0 && j < 4
    ensures Lane(p + q, j) == XorByte(Lane(p, j), Lane(q, j))
    decreases |q|
  {
    hide Lane, XorByte;
    if q == [] {
      assert p + q == p;
      NoLane(j);
      XorLaws(Lane(p, j), 0);
    } else {
      var r, x := q[..|q| - 1], q[|q| - 1];
      assert q == r + [x] && p + q == (p + r) + [x];
      LaneConcat(p, r, j);
      LaneSnoc(r, x, j);
      LaneSnoc(p + r, x, j);
      SameResidue(|p|, |r|);
      XorAssociative(Lane(p, j), Lane(r, j), x);
    }
  }

  lemma LaneOfFive(a: seq<byte>, c: seq<byte>, b: seq<byte>, d: seq<byte>, e: seq<byte>, j: nat)
    requires |a| % 4 == |b| % 4 == 0 && |c| == |d| == 4 && j < 4
    ensures Lane(a + c + b + d + e, j) ==
            XorByte(XorByte(XorByte(XorByte(Lane(a, j), Lane(c, j)), Lane(b, j)), Lane(d, j)), Lane(e, j))
  {
    hide Lane, XorByte;
    LaneConcat(a, c, j);
    LaneConcat(a + c, b, j);
    LaneConcat(a + c + b, d, j);
    LaneConcat(a + c + b + d, e, j);
  }

  lemma XorExchange(x: byte, c: byte, b: byte, d: byte)
    ensures XorByte(XorByte(XorByte(x, c), b), d) == XorByte(XorByte(XorByte(x, d), b), c)
  {
    hide XorByte;
    XorAssociative(x, c, b);
    XorAssociative(x, XorByte(c, b), d);
    XorAssociative(c, b, d);
    XorLaws(c, XorByte(b, d));
    XorLaws(b, d);
    XorAssociative(x, XorByte(d, b), c);
    XorAssociative(x, d, b);
  }

  /** Exchanging any two aligned chunks of any valid message goes unnoticed. */
  lemma ChunkSwapUndetected(m: NetworkMessage, a: seq<byte>, c: seq<byte>, b: seq<byte>, d: seq<byte>, e: seq<byte>)
    requires m.Validate() == OK && m.body == a + c + b + d + e
    requires |c| == |d| == 4 && |a| % 4 == |b| % 4 == 0
    ensures m.(body := a + d + b + c + e).Validate() == OK
    ensures c != d ==> a + d + b + c + e != m.body
  {
    hide Lane, XorByte, Checksum;
    var body := a + d + b + c + e;
    forall j: nat | j < 4
      ensures Lane(body, j) == Lane(m.body, j)
    {
      LaneOfFive(a, c, b, d, e, j);
      LaneOfFive(a, d, b, c, e, j);
      XorExchange(Lane(a, j), Lane(c, j), Lane(b, j), Lane(d, j));
    }
    ChecksumLanes(body, m.body);
    assert body[|a|..|a| + 4] == d && m.body[|a|..|a| + 4] == c;
  }

  // ---------- wire image ----------

  /** Memory image of the packed header: its first and its last sixteen bytes. */
  function EncodeHeader(h: MessageHeader): (s: seq<byte>)
    ensures |s| == HEADER_SIZE
  {
    EncodeFirst(h) + EncodeLast(h)
  }

  function EncodeFirst(h: MessageHeader): (s: seq<byte>)
    ensures |s| == 16
  {
    LittleEndian(h.magic, 4) + LittleEndian(h.version, 2) + LittleEndian(h.messageType, 2)
    + LittleEndian(h.bodyLength, 4) + h.checksum.Memory()
  }

  function EncodeLast(h: MessageHeader): (s: seq<byte>)
    ensures |s| == 16
  {
    LittleEndian(h.timestamp, 8) + LittleEndian(h.requestId, 8)
  }

  function DecodeHeader(s: seq<byte>): MessageHeader
    requires |s| == HEADER_SIZE
  {
    DecodeHalves(s[..16], s[16..])
  }

  function DecodeHalves(s: seq<byte>, t: seq<byte>): MessageHeader
    requires |s| == |t| == 16
  {
    MessageHeader(
      Word32(s[0..4]), Word16(s[4..6]), Word16(s[6..8]), Word32(s[8..12]), Load32(s[12..16]),
      Word64(t[..8]), Word64(t[8..]))
  }

  lemma HeaderRoundTrip(h: MessageHeader)
    ensures DecodeHeader(EncodeHeader(h)) == h
  {
    var s, t := EncodeFirst(h), EncodeLast(h);
    assert (s + t)[..16] == s && (s + t)[16..] == t;
    assert s[0..4] == LittleEndian(h.magic, 4);
    assert s[4..6] == LittleEndian(h.version, 2);
    assert s[6..8] == LittleEndian(h.messageType, 2);
    assert s[8..12] == LittleEndian(h.bodyLength, 4);
    assert s[12..16] == h.checksum.Memory();
    assert t[..8] == LittleEndian(h.timestamp, 8);
    assert t[8..] == LittleEndian(h.requestId, 8);
    Word32RoundTrip(h.magic);
    Word16RoundTrip(h.version);
    Word16RoundTrip(h.messageType);
    Word32RoundTrip(h.bodyLength);
    Word64RoundTrip(h.timestamp);
    Word64RoundTrip(h.requestId);
  }

  lemma HeaderImageRoundTrip(s: seq<byte>)
    requires |s| == HEADER_SIZE
    ensures EncodeHeader(DecodeHeader(s)) == s
  {
    var a, b := s[..16], s[16..];
    ImageRoundTrip(a[0..4]);
    ImageRoundTrip(a[4..6]);
    ImageRoundTrip(a[6..8]);
    ImageRoundTrip(a[8..12]);
    ImageRoundTrip(b[..8]);
    ImageRoundTrip(b[8..]);
    assert Load32(a[12..16]).Memory() == a[12..16];
    assert a == a[0..4] + a[4..6] + a[6..8] + a[8..12] + a[12..16];
    assert b == b[..8] + b[8..];
    assert s == a + b;
  }

  /** The bytes of a consistent message: header, then exactly bodyLength bytes. */
  function Frame(m: NetworkMessage): seq<byte> {
    EncodeHeader(m.header) + m.body
  }

  /** Where everything stands in a frame. */
  lemma FrameLayout(m: NetworkMessage)
    ensures var s := Frame(m);
            && |s| == 32 + |m.body|
            && s[0..4] == LittleEndian(m.header.magic, 4)
            && s[4..6] == LittleEndian(m.header.version, 2)
            && s[6..8] == LittleEndian(m.header.messageType, 2)
            && s[8..12] == LittleEndian(m.header.bodyLength, 4)
            && s[12..16] == m.header.checksum.Memory()
            && s[16..24] == LittleEndian(m.header.timestamp, 8)
            && s[24..32] == LittleEndian(m.header.requestId, 8)
            && s[32..] == m.body
  {
    hide LittleEndian;
    var s, first, last := Frame(m), EncodeFirst(m.header), EncodeLast(m.header);
    assert s[..16] == first && s[16..32] == last && s[32..] == m.body;
    assert s[0..4] == first[0..4] && s[4..6] == first[4..6] && s[6..8] == first[6..8];
    assert s[8..12] == first[8..12] && s[12..16] == first[12..16];
    assert s[16..24] == last[..8] && s[24..32] == last[8..];
  }

  /** Concatenation of the frames of a list of messages. */
  function Frames(ms: seq<NetworkMessage>): seq<byte> {
    if ms == [] then [] else Frame(ms[0]) + Frames(ms[1..])
  }

  lemma {:induction false} FramesAppend(a: seq<NetworkMessage>, b: seq<NetworkMessage>)
    ensures Frames(a + b) == Frames(a) + Frames(b)
  {
    if a == [] {
      assert a + b == b;
    } else {
      assert (a + b)[1..] == a[1..] + b;
      FramesAppend(a[1..], b);
    }
  }

  datatype Parsed =
    | Message(m: NetworkMessage, rest: seq<byte>)
    | Incomplete
    | Rejected(why: ValidationResult)

  /** What a receiver makes of the bytes available to it: the next message, too few bytes, or a rejection. */
  function Parse(s: seq<byte>): Parsed {
    if |s| < HEADER_SIZE then Incomplete
    else
      var h := DecodeHeader(s[..HEADER_SIZE]);
      if h.ValidateBasic() != OK then Rejected(h.ValidateBasic())
      else if |s| < HEADER_SIZE + h.bodyLength then Incomplete
      else
        var m := NetworkMessage(h, s[HEADER_SIZE..HEADER_SIZE + h.bodyLength]);
        if m.Validate() != OK then Rejected(m.Validate()) else Message(m, s[HEADER_SIZE + h.bodyLength..])
  }

  /** A framed message followed by anything parses to that message and that remainder, or to its own defect. */
  lemma ParseFrame(m: NetworkMessage, rest: seq<byte>)
    requires m.Consistent()
    ensures Parse(Frame(m) + rest) ==
            if m.Validate() == OK then Message(m, rest) else Rejected(m.Validate())
  {
    var s := Frame(m) + rest;
    HeaderRoundTrip(m.header);
    assert s[..HEADER_SIZE] == EncodeHeader(m.header);
    var n := HEADER_SIZE + m.header.bodyLength;
    assert s[HEADER_SIZE..n] == m.body;
    assert s[n..] == rest;
  }

  /** A receiver refuses a frame on its header alone, with any body and anything behind it. */
  lemma HeaderRefused(m: NetworkMessage, rest: seq<byte>)
    ensures m.header.magic != 0x4D50_4345 ==> Parse(Frame(m) + rest) == Rejected(InvalidMagic)
    ensures m.header.magic == 0x4D50_4345 && m.header.version != 1 ==>
              Parse(Frame(m) + rest) == Rejected(InvalidVersion)
    ensures m.header.magic == 0x4D50_4345 && m.header.version == 1 && m.header.bodyLength > 1_048_576 ==>
              Parse(Frame(m) + rest) == Rejected(BodyTooLarge)
  {
    hide DecodeHeader, EncodeHeader, Checksum;
    var s := Frame(m) + rest;
    HeaderRoundTrip(m.header);
    assert s[..HEADER_SIZE] == EncodeHeader(m.header);
  }

  /** Parsing invents nothing: the bytes consumed are exactly the frame of the valid message returned. */
  lemma ParseSound(s: seq<byte>)
    requires Parse(s).Message?
    ensures Parse(s).m.Validate() == OK && Parse(s).m.Consistent()
    ensures Frame(Parse(s).m) + Parse(s).rest == s
  {
    HeaderImageRoundTrip(s[..HEADER_SIZE]);
    var n := HEADER_SIZE + Parse(s).m.header.bodyLength;
    assert s == s[..HEADER_SIZE] + s[HEADER_SIZE..n] + s[n..];
  }

  /** A torn frame never parses to a message. */
  lemma TornFrame(m: NetworkMessage, k: nat)
    requires m.Consistent() && k < |Frame(m)|
    ensures !Parse(Frame(m)[..k]).Message?
  {
    hide Parse, EncodeHeader;
    var f := Frame(m);
    var t, u := f[..k], f[k..];
    assert t + u == f == f + [] && |u| > 0;
    if Parse(t).Message? {
      ParseSound(t);
      var m', rest := Parse(t).m, Parse(t).rest;
      assert f == Frame(m') + (rest + u) by { assert t == Frame(m') + rest; }
      ParseFrame(m', rest + u);
      ParseFrame(m, []);
    }
  }

  /** Distinct streams of consistent messages have distinct bytes: the framing is uniquely decodable. */
  lemma {:induction false} FramesInjective(a: seq<NetworkMessage>, b: seq<NetworkMessage>)
    requires forall m :: m in a || m in b ==> m.Consistent() && m.Validate() == OK
    requires Frames(a) == Frames(b)
    ensures a == b
  {
    FramesLength(a);
    FramesLength(b);
    if a != [] && b != [] {
      ParseFrame(a[0], Frames(a[1..]));
      ParseFrame(b[0], Frames(b[1..]));
      FramesInjective(a[1..], b[1..]);
    }
  }

  lemma {:induction false} FramesLength(ms: seq<NetworkMessage>)
    ensures |Frames(ms)| >= HEADER_SIZE * |ms|
  {
    if ms != [] {
      FramesLength(ms[1..]);
    }
  }
}
