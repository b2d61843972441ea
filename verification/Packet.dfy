/** Packet: the 4096-byte buffer that serializers fill in place and the parser checks. */
module Packet {
  import opened Common
  import opened Wire
  import Crc32c

  class Packet {
    const data: array<byte>
    /** the checksum table and path of this build */
    const table: Crc32c.Table
    const hardware: bool
    var header: Header
    /** in - data */
    var received: nat
    var writePos: nat
    var parsedHeader: bool
    var parsedData: bool

    ghost predicate Valid()
      reads this
    {
      data.Length == PACKET_SIZE && received <= PACKET_SIZE && HEADER_SIZE <= writePos <= PACKET_SIZE
    }

    /** The payload written so far. */
    ghost function Payload(): (s: seq<byte>)
      requires Valid()
      reads this, data
    {
      data[HEADER_SIZE..writePos]
    }

    /** The bytes of the packet. */
    ghost function Bytes(): (s: seq<byte>)
      requires Valid()
      reads this, data
    {
      data[..received]
    }

    constructor (table: Crc32c.Table, hardware: bool)
      ensures this.table == table && this.hardware == hardware
      ensures Valid() && fresh(data) && received == 0 && !parsedHeader
    {
      this.table, this.hardware := table, hardware;
      data := new byte[PACKET_SIZE](i => 0);
      header := Header(0, 0, 0, 0, 0, 0);
      received, writePos := 0, HEADER_SIZE;
      parsedHeader, parsedData := false, false;
    }

    /** memcpy of bytes into the buffer at position at */
    method Store(at: nat, bytes: seq<byte>)
      requires at + |bytes| <= data.Length
      modifies data
      ensures data[at..at + |bytes|] == bytes
      ensures data[..at] == old(data[..at]) && data[at + |bytes|..] == old(data[at + |bytes|..])
    {
      for i := 0 to |bytes|
        invariant data[at..at + i] == bytes[..i]
        invariant data[..at] == old(data[..at])
        invariant data[at + i..] == old(data[at + i..])
      {
        data[at + i] := bytes[i];
        assert data[at..at + i + 1] == data[at..at + i] + [bytes[i]];
        assert data[at + i + 1..] == old(data[at + i..])[1..];
      }
    }

    /** Writes bytes at writePos and advances it. */
    method Append(bytes: seq<byte>)
      requires Valid() && writePos + |bytes| <= PACKET_SIZE
      modifies this`writePos, data
      ensures Valid() && writePos == old(writePos) + |bytes|
      ensures Payload() == old(Payload()) + bytes
    {
      Store(writePos, bytes);
      ghost var at := writePos;
      writePos := writePos + |bytes|;
      assert data[HEADER_SIZE..at] == old(data[..writePos])[HEADER_SIZE..];
      assert data[HEADER_SIZE..writePos] == data[HEADER_SIZE..at] + data[at..writePos];
    }

    /** The checksum in two calls, header first and payload continued from it, which is one
        pass over both. */
    method FrameChecksum(length: nat) returns (crc: word)
      requires data.Length == PACKET_SIZE && HEADER_SIZE + length <= PACKET_SIZE
      ensures crc == Crc32c.Checksum(table, data[..12] + data[HEADER_SIZE..HEADER_SIZE + length], 0)
    {
      crc := Crc32c.Compute(hardware, table, data[..12], 0);
      if length > 0 {
        crc := Crc32c.Compute(hardware, table, data[HEADER_SIZE..HEADER_SIZE + length], crc);
        Crc32c.ChecksumAppend(table, data[..12], data[HEADER_SIZE..HEADER_SIZE + length], 0);
      } else {
        assert data[..12] + data[HEADER_SIZE..HEADER_SIZE + length] == data[..12];
      }
    }

    /** Writes header bytes in front of the payload. */
    method StoreHeader(at: nat, bytes: seq<byte>)
      requires Valid() && at + |bytes| <= HEADER_SIZE
      modifies data
      ensures data[at..at + |bytes|] == bytes
      ensures data[..at] == old(data[..at]) && Payload() == old(Payload())
    {
      Store(at, bytes);
      ghost var end := at + |bytes|;
      assert data[HEADER_SIZE..writePos] == data[end..][HEADER_SIZE - end..writePos - end];
      assert old(data[HEADER_SIZE..writePos]) == old(data[end..])[HEADER_SIZE - end..writePos - end];
    }

    /** finalizePacket: header fields, then the checksum over header and payload. */
    method FinalizePacket(ptype: nat)
      requires Valid() && ptype < TWO16
      modifies this`header, this`received, data
      ensures Valid() && Bytes() == Frame(table, ptype, old(Payload()))
      ensures header == DecodeHeader(Bytes())
    {
      var length := writePos - HEADER_SIZE;
      ghost var payload := Payload();
      StoreHeader(0, HeaderPrefix(ptype, length));
      assert data[..12] == data[0..12];
      var crc := FrameChecksum(length);
      StoreHeader(12, Be32(crc));
      received := writePos;
      header := Header(START_BYTE, CURRENT_VERSION, ptype, length, 0, crc);
      JoinsFrame(table, data[..received], ptype, payload, crc);
    }

    method ResetWritePos()
      requires Valid()
      modifies this`writePos
      ensures Valid() && Payload() == []
    {
      writePos := HEADER_SIZE;
    }

    method WriteSignup(f: Signup)
      requires Valid() && Payload() == [] && HEADER_SIZE + |SignupBytes(f)| <= PACKET_SIZE
      modifies this`writePos, data
      ensures Valid() && Payload() == SignupBytes(f)
    {
      LengthsFit(f);
      var lengths := Htons(|f.email|) + Htons(|f.number|) + Htons(|f.username|) + Htons(|f.password|);
      Append(lengths);
      assert Payload() == SignupLengths(f);
      AppendStrings(f);
    }

    method AppendStrings(f: Signup)
      requires Valid() && writePos + |f.email| + |f.number| + |f.username| + |f.password| <= PACKET_SIZE
      modifies this`writePos, data
      ensures Valid() && Payload() == old(Payload()) + f.email + f.number + f.username + f.password
    {
      Append(f.email);
      Append(f.number);
      Append(f.username);
      Append(f.password);
    }

    /** serializeSignup */
    method SerializeSignup(f: Signup) returns (ok: bool)
      requires Valid()
      modifies this`writePos, this`header, this`received, data
      ensures Valid()
      ensures ok <==> HEADER_SIZE + |SignupBytes(f)| <= PACKET_SIZE
      ensures ok ==> Bytes() == Frame(table, PKT_SIGN_UP, SignupBytes(f)) && header == DecodeHeader(Bytes())
      ensures !ok ==> data[..] == old(data[..]) && received == old(received)
    {
      ResetWritePos();
      if writePos + 8 + |f.email| + |f.number| + |f.username| + |f.password| > PACKET_SIZE { return false; }
      WriteSignup(f);
      FinalizePacket(PKT_SIGN_UP);
      return true;
    }

    /** serializeFileChunk. A chunk of the sender, at most 3840 bytes, always fits. */
    method SerializeFileChunk(f: Chunk) returns (ok: bool)
      requires Valid() && |f.uploadId| == 16
      modifies this`writePos, this`header, this`received, data
      ensures Valid()
      ensures ok <==> |f.data| <= 4048
      ensures ok ==> Bytes() == Frame(table, PKT_FILE_CHUNK, ChunkBytes(table, f)) && header == DecodeHeader(Bytes())
      ensures !ok ==> data[..] == old(data[..]) && received == old(received)
    {
      ResetWritePos();
      if writePos + 32 + |f.data| > PACKET_SIZE { return false; }
      Append(f.uploadId);
      assert Payload() == f.uploadId;
      Append(Be64(f.offset));
      Append(Be32(|f.data|));
      var crc := Crc32c.Compute(hardware, table, f.data, 0);
      Append(Be32(crc));
      Append(f.data);
      FinalizePacket(PKT_FILE_CHUNK);
      return true;
    }

    method WriteAck(f: Ack)
      requires Valid() && Payload() == [] && |f.uploadId| == 16 && |f.missing| <= 1014
      modifies this`writePos, data
      ensures Valid() && Payload() == AckBytes(f)
    {
      Append(f.uploadId);
      assert Payload() == f.uploadId;
      Append(Be32(f.round));
      Append(Be32(|f.missing|));
      AppendWords(f.missing);
    }

    /** Writes the entries one by one in network order. */
    method AppendWords(words: seq<nat>)
      requires Valid() && writePos + 4 * |words| <= PACKET_SIZE
      modifies this`writePos, data
      ensures Valid() && Payload() == old(Payload()) + WordsBytes(words)
    {
      ghost var front := Payload();
      for i := 0 to |words|
        invariant Valid() && writePos == old(writePos) + 4 * i
        invariant Payload() == front + WordsBytes(words[..i])
      {
        Append(Be32(words[i]));
        NextWord(front, words, i);
      }
      assert words[..|words|] == words;
    }

    /** serializeFileAck. Exactly lists of at most 1014 entries fit. */
    method SerializeFileAck(f: Ack) returns (ok: bool)
      requires Valid() && |f.uploadId| == 16
      modifies this`writePos, this`header, this`received, data
      ensures Valid()
      ensures ok <==> |f.missing| <= 1014
      ensures ok ==> Bytes() == Frame(table, PKT_FILE_ACK, AckBytes(f)) && header == DecodeHeader(Bytes())
      ensures !ok ==> data[..] == old(data[..]) && received == old(received)
    {
      ResetWritePos();
      if writePos + 24 + |f.missing| * 4 > PACKET_SIZE { return false; }
      WriteAck(f);
      FinalizePacket(PKT_FILE_ACK);
      return true;
    }

    /** parseHeader */
    method ParseHeader() returns (ok: bool)
      requires Valid()
      modifies this`header, this`parsedHeader
      ensures Valid()
      ensures ok <==> received >= HEADER_SIZE && data[0] == START_BYTE
      ensures received >= HEADER_SIZE ==> header == DecodeHeader(Bytes())
      ensures parsedHeader == (ok || old(parsedHeader))
    {
      if received < HEADER_SIZE { return false; }
      header := DecodeHeader(data[..received]);
      if header.magic != START_BYTE { return false; }
      parsedHeader := true;
      return true;
    }

    /** parseData. The framing loop hands over only packets that fit the buffer. */
    method ParseData() returns (ok: bool)
      requires Valid()
      requires parsedHeader ==> header.payloadLength <= PACKET_SIZE - HEADER_SIZE
      modifies this`parsedData
      ensures ok <==>
        && parsedHeader && received >= HEADER_SIZE + header.payloadLength
        && Crc32c.Checksum(table,
             data[..12] + data[HEADER_SIZE..HEADER_SIZE + header.payloadLength], 0) == header.checksum
      ensures parsedData == (ok || old(parsedData))
    {
      if !parsedHeader { return false; }
      if received < HEADER_SIZE + header.payloadLength { return false; }
      var computed := FrameChecksum(header.payloadLength);
      if computed != header.checksum { return false; }
      parsedData := true;
      return true;
    }

    /** parseHeader then parseData on a freshly received packet, as the worker calls them. */
    method Parse() returns (ok: bool)
      requires Valid() && !parsedHeader
      requires received >= HEADER_SIZE ==> DecodeHeader(Bytes()).payloadLength <= PACKET_SIZE - HEADER_SIZE
      modifies this`header, this`parsedHeader, this`parsedData
      ensures ok <==> Accepted(table, Bytes())
      ensures ok ==> header == DecodeHeader(Bytes())
    {
      var parsed := ParseHeader();
      var parsedBody := false;
      parsedBody := ParseData();
      if parsed && received >= HEADER_SIZE + header.payloadLength {
        CoveredSlices(data[..], received);
      }
      return parsed && parsedBody;
    }
  }

  /** htons(static_cast<uint16_t>(n)) */
  function Htons(n: nat): (s: seq<byte>)
    ensures |s| == 2
    ensures n < TWO16 ==> s == Be16(n)
  {
    if n < TWO16 then Be16(n) else Be16(n % TWO16)
  }

  /** The four length fields are not truncated when the payload fits a packet. */
  lemma LengthsFit(f: Signup)
    requires HEADER_SIZE + |SignupBytes(f)| <= PACKET_SIZE
    ensures Htons(|f.email|) + Htons(|f.number|) + Htons(|f.username|) + Htons(|f.password|) == SignupLengths(f)
  {
  }

  lemma NextWord(front: seq<byte>, words: seq<nat>, i: nat)
    requires i < |words|
    ensures front + WordsBytes(words[..i]) + Be32(words[i]) == front + WordsBytes(words[..i + 1])
  {
    assert words[..i + 1][..i] == words[..i];
  }

  /** A buffer whose header fields and payload are in place holds the frame. */
  lemma JoinsFrame(tab: Crc32c.Table, s: seq<byte>, ptype: nat, payload: seq<byte>, crc: word)
    requires ptype < TWO16 && |payload| < TWO32 && |s| == HEADER_SIZE + |payload|
    requires s[..12] == HeaderPrefix(ptype, |payload|) && s[12..16] == Be32(crc) && s[16..] == payload
    requires crc == Crc32c.Checksum(tab, HeaderPrefix(ptype, |payload|) + payload, 0)
    ensures s == Frame(tab, ptype, payload)
    ensures DecodeHeader(s) == Header(START_BYTE, CURRENT_VERSION, ptype, |payload|, 0, crc)
  {
    assert s == s[..12] + s[12..16] + s[16..];
    FrameAccepted(tab, ptype, payload);
  }

  lemma CoveredSlices(d: seq<byte>, n: nat)
    requires HEADER_SIZE <= n <= |d| && n >= HEADER_SIZE + DecodeHeader(d[..n]).payloadLength
    ensures Covered(d[..n]) == d[..12] + d[HEADER_SIZE..HEADER_SIZE + DecodeHeader(d[..n]).payloadLength]
  {
  }
}
