/** Network byte order, the byte layout of packets, and the layout of the payloads modelled here. */
module Wire {
  import opened Common
  import Crc32c

  const HEADER_SIZE: nat := 16
  const PACKET_SIZE: nat := 4096
  const START_BYTE: byte := 0xD5
  const CURRENT_VERSION: byte := 0x01

  const PKT_FILE_CHUNK: nat := 9
  const PKT_FILE_ACK: nat := 20
  const PKT_SIGN_UP: nat := 23

  // ---- Network byte order: htons, htonl, htonll and back ----

  function Be16(n: nat): (s: seq<byte>)
    ensures |s| == 2
  {
    [n / 0x100 % 0x100, n % 0x100]
  }

  function Be32(n: nat): (s: seq<byte>)
    ensures |s| == 4
  {
    var a := n / 0x100;
    var b := a / 0x100;
    var c := b / 0x100;
    [c % 0x100, b % 0x100, a % 0x100, n % 0x100]
  }

  function Be64(n: nat): (s: seq<byte>)
    ensures |s| == 8
  {
    Be32(n / TWO32) + Be32(n % TWO32)
  }

  function U16At(s: seq<byte>, i: nat): (n: nat)
    requires i + 2 <= |s|
    ensures n < TWO16
  {
    s[i] as int * 0x100 + s[i + 1]
  }

  function U32At(s: seq<byte>, i: nat): (n: nat)
    requires i + 4 <= |s|
    ensures n < TWO32
  {
    ((s[i] as int * 0x100 + s[i + 1]) * 0x100 + s[i + 2]) * 0x100 + s[i + 3]
  }

  function U64At(s: seq<byte>, i: nat): (n: nat)
    requires i + 8 <= |s|
    ensures n < TWO64
  {
    U32At(s, i) * TWO32 + U32At(s, i + 4)
  }

  /** The part of s from i on starts with t. */
  predicate Holds(s: seq<byte>, i: nat, t: seq<byte>)
  {
    i + |t| <= |s| && s[i..i + |t|] == t
  }

  lemma Read16(s: seq<byte>, i: nat, n: nat)
    requires n < TWO16 && Holds(s, i, Be16(n))
    ensures U16At(s, i) == n
  {
    var t := s[i..i + 2];
    assert s[i] == t[0] && s[i + 1] == t[1];
  }

  lemma Read32(s: seq<byte>, i: nat, n: nat)
    requires n < TWO32 && Holds(s, i, Be32(n))
    ensures U32At(s, i) == n
  {
    var t := s[i..i + 4];
    assert s[i] == t[0] && s[i + 1] == t[1] && s[i + 2] == t[2] && s[i + 3] == t[3];
  }

  lemma Read64(s: seq<byte>, i: nat, n: nat)
    requires n < TWO64 && Holds(s, i, Be64(n))
    ensures U64At(s, i) == n
  {
    var t := Be64(n);
    assert s[i..i + 4] == t[..4] == Be32(n / TWO32);
    assert s[i + 4..i + 8] == t[4..] == Be32(n % TWO32);
    Read32(s, i, n / TWO32);
    Read32(s, i + 4, n % TWO32);
  }

  // ---- Cutting concatenations ----

  lemma PartHeld(pre: seq<byte>, mid: seq<byte>, post: seq<byte>)
    ensures Holds(pre + mid + post, |pre|, mid)
  {
  }

  lemma TwoParts(x: seq<byte>, y: seq<byte>)
    ensures Holds(x + y, 0, x) && Holds(x + y, |x|, y)
  {
  }

  lemma StaysHeld(x: seq<byte>, y: seq<byte>, i: nat, t: seq<byte>)
    requires Holds(x, i, t)
    ensures Holds(x + y, i, t)
  {
    assert (x + y)[i..i + |t|] == x[i..i + |t|];
  }

  lemma ThreeParts(a: seq<byte>, b: seq<byte>, c: seq<byte>)
    ensures var s := a + b + c; Holds(s, 0, a) && Holds(s, |a|, b) && Holds(s, |a| + |b|, c)
  {
    TwoParts(a, b);
    TwoParts(a + b, c);
    StaysHeld(a + b, c, 0, a);
    StaysHeld(a + b, c, |a|, b);
  }

  lemma FiveParts(a: seq<byte>, b: seq<byte>, c: seq<byte>, d: seq<byte>, e: seq<byte>)
    ensures var s := a + b + c + d + e;
      && Holds(s, 0, a) && Holds(s, |a|, b) && Holds(s, |a| + |b|, c)
      && Holds(s, |a| + |b| + |c|, d) && Holds(s, |a| + |b| + |c| + |d|, e)
  {
    var abc := a + b + c;
    ThreeParts(a, b, c);
    ThreeParts(abc, d, e);
    HoldsWithin(abc + d + e, 0, abc, 0, a);
    HoldsWithin(abc + d + e, 0, abc, |a|, b);
    HoldsWithin(abc + d + e, 0, abc, |a| + |b|, c);
  }

  /** A piece held by a held piece. */
  lemma HoldsWithin(s: seq<byte>, i: nat, t: seq<byte>, j: nat, u: seq<byte>)
    requires Holds(s, i, t) && Holds(t, j, u)
    ensures Holds(s, i + j, u)
  {
    forall k | 0 <= k < |u| ensures s[i + j + k] == u[k] {
      assert s[i..i + |t|][j + k] == t[j..j + |u|][k];
    }
  }

  // ---- Frames ----

  /** PacketHeader in host byte order. */
  datatype Header = Header(magic: byte, version: byte, ptype: nat, payloadLength: nat,
                           sequenceNumber: nat, checksum: nat)

  /** The twelve header bytes the checksum covers. */
  function HeaderPrefix(ptype: nat, length: nat): (s: seq<byte>)
    ensures |s| == 12
  {
    [START_BYTE, CURRENT_VERSION] + Be16(ptype) + Be32(length) + Be32(0)
  }

  /** The bytes of a finished packet. */
  function Frame(tab: Crc32c.Table, ptype: nat, payload: seq<byte>): (s: seq<byte>)
    ensures |s| == HEADER_SIZE + |payload|
  {
    var prefix := HeaderPrefix(ptype, |payload|);
    prefix + Be32(Crc32c.Checksum(tab, prefix + payload, 0)) + payload
  }

  function DecodeHeader(s: seq<byte>): (h: Header)
    requires |s| >= HEADER_SIZE
  {
    Header(s[0], s[1], U16At(s, 2), U32At(s, 4), U32At(s, 8), U32At(s, 12))
  }

  /** The bytes the checksum of a received packet covers. */
  function Covered(s: seq<byte>): (c: seq<byte>)
    requires |s| >= HEADER_SIZE && |s| >= HEADER_SIZE + DecodeHeader(s).payloadLength
  {
    s[..12] + s[HEADER_SIZE..HEADER_SIZE + DecodeHeader(s).payloadLength]
  }

  /** What parseHeader followed by parseData accept. */
  predicate Accepted(tab: Crc32c.Table, s: seq<byte>)
  {
    && |s| >= HEADER_SIZE
    && s[0] == START_BYTE
    && |s| >= HEADER_SIZE + DecodeHeader(s).payloadLength
    && Crc32c.Checksum(tab, Covered(s), 0) == DecodeHeader(s).checksum
  }

  lemma PrefixFields(ptype: nat, length: nat)
    requires ptype < TWO16 && length < TWO32
    ensures var p := HeaderPrefix(ptype, length);
      && p[0] == START_BYTE && p[1] == CURRENT_VERSION
      && U16At(p, 2) == ptype && U32At(p, 4) == length && U32At(p, 8) == 0
  {
    var p := HeaderPrefix(ptype, length);
    FiveParts([START_BYTE, CURRENT_VERSION], Be16(ptype), Be32(length), Be32(0), []);
    assert p + [] == p;
    Read16(p, 2, ptype);
    Read32(p, 4, length);
    Read32(p, 8, 0);
  }

  /** The header fields of prefix, checksum and payload put together. */
  lemma FrameHeader(prefix: seq<byte>, crc: word, payload: seq<byte>)
    requires |prefix| == 12
    ensures var s := prefix + Be32(crc) + payload;
      && DecodeHeader(s) == Header(prefix[0], prefix[1], U16At(prefix, 2), U32At(prefix, 4), U32At(prefix, 8), crc)
      && s[..12] == prefix && s[HEADER_SIZE..] == payload
  {
    PartHeld(prefix, Be32(crc), payload);
    Read32(prefix + Be32(crc) + payload, 12, crc);
  }

  /** A frame is accepted and decodes to what was written. */
  lemma FrameAccepted(tab: Crc32c.Table, ptype: nat, payload: seq<byte>)
    requires ptype < TWO16 && |payload| < TWO32
    ensures var s := Frame(tab, ptype, payload);
      && Accepted(tab, s)
      && DecodeHeader(s) == Header(START_BYTE, CURRENT_VERSION, ptype, |payload|, 0,
           Crc32c.Checksum(tab, HeaderPrefix(ptype, |payload|) + payload, 0))
      && s[HEADER_SIZE..] == payload
  {
    var prefix := HeaderPrefix(ptype, |payload|);
    var crc := Crc32c.Checksum(tab, prefix + payload, 0);
    PrefixFields(ptype, |payload|);
    FrameHeader(prefix, crc, payload);
    assert Covered(Frame(tab, ptype, payload)) == prefix + payload;
  }

  /** Network byte order: the most significant byte comes first. */
  lemma NetworkOrder16(n: nat)
    requires n < TWO16
    ensures var s := Be16(n); n == 0x100 * s[0] as int + s[1]
  {
  }

  lemma NetworkOrder32(n: nat)
    requires n < TWO32
    ensures var s := Be32(n); n == 0x100_0000 * s[0] as int + 0x1_0000 * s[1] as int + 0x100 * s[2] as int + s[3]
  {
    var a := n / 0x100;
    var b := a / 0x100;
    assert n == 0x100 * a + n % 0x100 && a == 0x100 * b + a % 0x100;
  }

  lemma NetworkOrder64(n: nat)
    requires n < TWO64
    ensures Be64(n)[..4] == Be32(n / TWO32) && Be64(n)[4..] == Be32(n % TWO32)
  {
  }

  /** The layout of a frame: magic, version, type, length, a zero sequence number, the checksum of all but
      itself, and the payload. */
  lemma FrameLayout(tab: Crc32c.Table, ptype: nat, payload: seq<byte>)
    requires ptype < TWO16 && |payload| < TWO32
    ensures var s := Frame(tab, ptype, payload);
      && s[0] == 0xD5 && s[1] == 1 && s[2] == ptype / 0x100 && s[3] == ptype % 0x100
      && s[4..8] == Be32(|payload|) && s[8..12] == [0, 0, 0, 0] && s[16..] == payload
      && s[12..16] == Be32(Crc32c.Checksum(tab, s[..12] + payload, 0))
  {
    var s, prefix := Frame(tab, ptype, payload), HeaderPrefix(ptype, |payload|);
    var crc := Crc32c.Checksum(tab, prefix + payload, 0);
    PrefixLayout(ptype, |payload|);
    ThreeParts(prefix, Be32(crc), payload);
    assert s[..12] == prefix && s[4..8] == prefix[4..8] && s[8..12] == prefix[8..12];
  }

  lemma PrefixLayout(ptype: nat, length: nat)
    requires ptype < TWO16
    ensures var p := HeaderPrefix(ptype, length);
      && p[0] == 0xD5 && p[1] == 1 && p[2] == ptype / 0x100 && p[3] == ptype % 0x100
      && p[4..8] == Be32(length) && p[8..12] == [0, 0, 0, 0]
  {
    FiveParts([START_BYTE, CURRENT_VERSION], Be16(ptype), Be32(length), Be32(0), []);
    assert HeaderPrefix(ptype, length) + [] == HeaderPrefix(ptype, length);
  }

  /** Changing an accepted packet within four consecutive covered bytes, and leaving its length
      and checksum fields alone, always makes it rejected. */
  lemma CorruptionRejected(tab: Crc32c.Table, s: seq<byte>, s': seq<byte>, start: nat)
    requires Crc32c.TopBytesDistinct(tab)
    requires Accepted(tab, s) && |s'| == |s|
    requires U32At(s', 4) == U32At(s, 4) && U32At(s', 12) == U32At(s, 12)
    requires Crc32c.DifferInBurst(Covered(s), Covered(s'), start)
    ensures !Accepted(tab, s')
  {
    Crc32c.BurstDetected(tab, Covered(s), Covered(s'), start, 0);
  }

  /** On the software path: no such change slips through. */
  lemma SoftwareCorruptionRejected(s: seq<byte>, s': seq<byte>, start: nat)
    requires Accepted(Crc32c.SoftwareTable(), s) && |s'| == |s|
    requires U32At(s', 4) == U32At(s, 4) && U32At(s', 12) == U32At(s, 12)
    requires Crc32c.DifferInBurst(Covered(s), Covered(s'), start)
    ensures !Accepted(Crc32c.SoftwareTable(), s')
  {
    Crc32c.SoftwareTableDistinct();
    CorruptionRejected(Crc32c.SoftwareTable(), s, s', start);
  }

  // ---- Sign-up ----

  datatype Signup = Signup(email: seq<byte>, number: seq<byte>, username: seq<byte>, password: seq<byte>)

  function SignupLengths(f: Signup): (s: seq<byte>)
    ensures |s| == 8
  {
    Be16(|f.email|) + Be16(|f.number|) + Be16(|f.username|) + Be16(|f.password|)
  }

  function SignupBytes(f: Signup): (s: seq<byte>)
    ensures |s| == 8 + |f.email| + |f.number| + |f.username| + |f.password|
  {
    SignupLengths(f) + f.email + f.number + f.username + f.password
  }

  /** The length fields of a sign-up payload stay within it. */
  predicate SignupFits(s: seq<byte>)
  {
    |s| >= 8 && 8 + U16At(s, 0) + U16At(s, 2) + U16At(s, 4) + U16At(s, 6) <= |s|
  }

  /** The four strings the sign-up handler cuts out of the payload. */
  function ReadSignup(s: seq<byte>): (f: Signup)
    requires SignupFits(s)
  {
    var e := 8 + U16At(s, 0);
    var n := e + U16At(s, 2);
    var u := n + U16At(s, 4);
    var p := u + U16At(s, 6);
    Signup(s[8..e], s[e..n], s[n..u], s[u..p])
  }

  /** Four lengths, then the strings: e-mail, number, user name, password. */
  lemma SignupLayout(f: Signup)
    ensures var s := SignupBytes(f); var e, n, u := |f.email|, |f.number|, |f.username|;
      && s[0..2] == Be16(e) && s[2..4] == Be16(n) && s[4..6] == Be16(u) && s[6..8] == Be16(|f.password|)
      && s[8..8 + e] == f.email && s[8 + e..8 + e + n] == f.number
      && s[8 + e + n..8 + e + n + u] == f.username && s[8 + e + n + u..] == f.password
  {
    FiveParts(Be16(|f.email|), Be16(|f.number|), Be16(|f.username|), Be16(|f.password|), []);
    FiveParts(SignupLengths(f), f.email, f.number, f.username, f.password);
    var s, l := SignupBytes(f), SignupLengths(f);
    assert l + [] == l && s[..8] == l;
    assert s[0..2] == l[0..2] && s[2..4] == l[2..4] && s[4..6] == l[4..6] && s[6..8] == l[6..8];
  }

  lemma SignupRoundTrip(f: Signup)
    requires |f.email| < TWO16 && |f.number| < TWO16 && |f.username| < TWO16 && |f.password| < TWO16
    ensures SignupFits(SignupBytes(f)) && ReadSignup(SignupBytes(f)) == f
  {
    var s := SignupBytes(f);
    SignupLayout(f);
    Read16(s, 0, |f.email|);
    Read16(s, 2, |f.number|);
    Read16(s, 4, |f.username|);
    Read16(s, 6, |f.password|);
  }

  // ---- File chunks ----

  datatype Chunk = Chunk(uploadId: seq<byte>, offset: nat, data: seq<byte>)

  function ChunkBytes(tab: Crc32c.Table, f: Chunk): (s: seq<byte>)
    requires |f.uploadId| == 16
    ensures |s| == 32 + |f.data|
  {
    f.uploadId + Be64(f.offset) + Be32(|f.data|) + Be32(Crc32c.Checksum(tab, f.data, 0)) + f.data
  }

  predicate ChunkFits(s: seq<byte>)
  {
    |s| >= 32 && 32 + U32At(s, 24) <= |s|
  }

  /** What handleFileChunk reads, and whether the chunk's own checksum matches. */
  function ReadChunk(tab: Crc32c.Table, s: seq<byte>): (r: (Chunk, bool))
    requires ChunkFits(s)
  {
    var data := s[32..32 + U32At(s, 24)];
    (Chunk(s[..16], U64At(s, 16), data), Crc32c.Checksum(tab, data, 0) == U32At(s, 28))
  }

  lemma ChunkRoundTrip(tab: Crc32c.Table, f: Chunk)
    requires |f.uploadId| == 16 && f.offset < TWO64 && |f.data| < TWO32
    ensures ChunkFits(ChunkBytes(tab, f)) && ReadChunk(tab, ChunkBytes(tab, f)) == (f, true)
  {
    var s, crc := ChunkBytes(tab, f), Crc32c.Checksum(tab, f.data, 0);
    FiveParts(f.uploadId, Be64(f.offset), Be32(|f.data|), Be32(crc), f.data);
    Read64(s, 16, f.offset);
    Read32(s, 24, |f.data|);
    Read32(s, 28, crc);
  }

  // ---- Acknowledgements ----

  datatype Ack = Ack(uploadId: seq<byte>, round: nat, missing: seq<nat>)

  function WordsBytes(ns: seq<nat>): (s: seq<byte>)
    ensures |s| == 4 * |ns|
  {
    if ns == [] then [] else WordsBytes(ns[..|ns| - 1]) + Be32(ns[|ns| - 1])
  }

  function AckBytes(f: Ack): (s: seq<byte>)
    requires |f.uploadId| == 16
    ensures |s| == 24 + 4 * |f.missing|
  {
    f.uploadId + Be32(f.round) + Be32(|f.missing|) + WordsBytes(f.missing)
  }

  lemma {:induction false} WordHeld(ns: seq<nat>, i: nat)
    requires i < |ns|
    ensures Holds(WordsBytes(ns), 4 * i, Be32(ns[i]))
  {
    var n := |ns| - 1;
    if i == n {
      PartHeld(WordsBytes(ns[..n]), Be32(ns[n]), []);
      assert WordsBytes(ns) + [] == WordsBytes(ns);
    } else {
      WordHeld(ns[..n], i);
      PartHeld([], WordsBytes(ns[..n]), Be32(ns[n]));
      assert [] + WordsBytes(ns[..n]) == WordsBytes(ns[..n]);
      HoldsWithin(WordsBytes(ns), 0, WordsBytes(ns[..n]), 4 * i, Be32(ns[i]));
    }
  }

  predicate AckFits(s: seq<byte>)
  {
    |s| >= 24 && 24 + 4 * U32At(s, 20) <= |s|
  }

  /** The round and the list of missing chunks in an acknowledgement. */
  function ReadAck(s: seq<byte>): (f: Ack)
    requires AckFits(s)
  {
    Ack(s[..16], U32At(s, 16), seq(U32At(s, 20), i requires 0 <= i < U32At(s, 20) => U32At(s, 24 + 4 * i)))
  }

  /** handleFileAck: the missing list, entry by entry. */
  method ParseAck(s: seq<byte>) returns (f: Ack)
    requires AckFits(s)
    ensures f == ReadAck(s)
  {
    var missing: seq<nat> := [];
    for i := 0 to U32At(s, 20)
      invariant missing == seq(i, j requires 0 <= j < i => U32At(s, 24 + 4 * j))
    {
      missing := missing + [U32At(s, 24 + 4 * i)];
    }
    return Ack(s[..16], U32At(s, 16), missing);
  }

  lemma AckFields(f: Ack)
    requires |f.uploadId| == 16 && f.round < TWO32 && |f.missing| < TWO32
    ensures var s := AckBytes(f);
      && s[..16] == f.uploadId && U32At(s, 16) == f.round && U32At(s, 20) == |f.missing|
      && Holds(s, 24, WordsBytes(f.missing))
  {
    var s := AckBytes(f);
    FiveParts(f.uploadId, Be32(f.round), Be32(|f.missing|), WordsBytes(f.missing), []);
    assert s + [] == s;
    Read32(s, 16, f.round);
    Read32(s, 20, |f.missing|);
  }

  lemma AckEntry(f: Ack, i: nat)
    requires |f.uploadId| == 16 && i < |f.missing| && f.missing[i] < TWO32
    ensures U32At(AckBytes(f), 24 + 4 * i) == f.missing[i]
  {
    AckLayout(f, i);
    Read32(AckBytes(f), 24 + 4 * i, f.missing[i]);
  }

  lemma AckRoundTrip(f: Ack)
    requires |f.uploadId| == 16 && f.round < TWO32 && |f.missing| < TWO32
    requires forall i :: 0 <= i < |f.missing| ==> f.missing[i] < TWO32
    ensures AckFits(AckBytes(f)) && ReadAck(AckBytes(f)) == f
  {
    var s := AckBytes(f);
    AckFields(f);
    forall i: nat | i < |f.missing| ensures U32At(s, 24 + 4 * i) == f.missing[i] { AckEntry(f, i); }
    assert ReadAck(s).missing == f.missing;
  }

  // ---- End to end ----

  /** Whatever fits and is sent arrives: the receiver accepts the frame, dispatches on the same
      type, and reads back the same fields. */
  lemma SignupSurvives(tab: Crc32c.Table, f: Signup)
    requires HEADER_SIZE + |SignupBytes(f)| <= PACKET_SIZE
    ensures var s := Frame(tab, PKT_SIGN_UP, SignupBytes(f));
      && Accepted(tab, s) && DecodeHeader(s).ptype == 23
      && SignupFits(s[HEADER_SIZE..]) && ReadSignup(s[HEADER_SIZE..]) == f
  {
    FrameAccepted(tab, PKT_SIGN_UP, SignupBytes(f));
    SignupRoundTrip(f);
  }

  lemma ChunkSurvives(tab: Crc32c.Table, f: Chunk)
    requires |f.uploadId| == 16 && f.offset < TWO64 && HEADER_SIZE + 32 + |f.data| <= PACKET_SIZE
    ensures var s := Frame(tab, PKT_FILE_CHUNK, ChunkBytes(tab, f));
      && Accepted(tab, s) && DecodeHeader(s).ptype == 9
      && ChunkFits(s[HEADER_SIZE..]) && ReadChunk(tab, s[HEADER_SIZE..]) == (f, true)
  {
    FrameAccepted(tab, PKT_FILE_CHUNK, ChunkBytes(tab, f));
    ChunkRoundTrip(tab, f);
  }

  lemma AckSurvives(tab: Crc32c.Table, f: Ack)
    requires |f.uploadId| == 16 && f.round < TWO32 && HEADER_SIZE + 24 + 4 * |f.missing| <= PACKET_SIZE
    requires forall i :: 0 <= i < |f.missing| ==> f.missing[i] < TWO32
    ensures var s := Frame(tab, PKT_FILE_ACK, AckBytes(f));
      && Accepted(tab, s) && DecodeHeader(s).ptype == 20
      && AckFits(s[HEADER_SIZE..]) && ReadAck(s[HEADER_SIZE..]) == f
  {
    FrameAccepted(tab, PKT_FILE_ACK, AckBytes(f));
    AckRoundTrip(f);
  }

  // ---- Layouts ----

  /** Upload id, offset, size, checksum of the data, data. */
  lemma ChunkLayout(tab: Crc32c.Table, f: Chunk)
    requires |f.uploadId| == 16
    ensures var s := ChunkBytes(tab, f);
      && s[..16] == f.uploadId && s[16..24] == Be64(f.offset) && s[24..28] == Be32(|f.data|)
      && s[28..32] == Be32(Crc32c.Checksum(tab, f.data, 0)) && s[32..] == f.data
  {
    FiveParts(f.uploadId, Be64(f.offset), Be32(|f.data|), Be32(Crc32c.Checksum(tab, f.data, 0)), f.data);
  }

  /** Upload id, round, count, and the missing indices one after the other. */
  lemma AckLayout(f: Ack, i: nat)
    requires |f.uploadId| == 16 && i < |f.missing|
    ensures var s := AckBytes(f);
      && s[..16] == f.uploadId && s[16..20] == Be32(f.round) && s[20..24] == Be32(|f.missing|)
      && s[24 + 4 * i..28 + 4 * i] == Be32(f.missing[i])
  {
    FiveParts(f.uploadId, Be32(f.round), Be32(|f.missing|), WordsBytes(f.missing), []);
    var s := AckBytes(f);
    assert s + [] == s;
    WordHeld(f.missing, i);
    HoldsWithin(s, 24, WordsBytes(f.missing), 4 * i, Be32(f.missing[i]));
  }
}
