/** The receive path of a connection: bytes read into the circular buffer are cut into packets
    by a header-peek loop that takes one pooled packet per frame. */
module Framing {
  import opened Common
  import opened Wire
  import CB = CircularBuffer
  import Crc32c

  /** What the loop decides from the front of the buffer. */
  datatype Verdict = Wait | Reject | Take(size: nat)

  function Peek(buf: seq<byte>): (v: Verdict)
    ensures v.Take? ==> HEADER_SIZE <= v.size <= PACKET_SIZE && v.size <= |buf|
    ensures v.Wait? ==> |buf| < PACKET_SIZE
  {
    if |buf| < HEADER_SIZE then Wait else
    var hdr := DecodeHeader(buf);
    if hdr.magic != START_BYTE || hdr.version != CURRENT_VERSION then Reject else
    var packetSize := Sum32(HEADER_SIZE, hdr.payloadLength);
    if packetSize < HEADER_SIZE then Reject
    else if packetSize > PACKET_SIZE then Reject
    else if |buf| < packetSize then Wait
    else Take(packetSize)
  }

  /** Bytes 4 to 7, the most significant first. */
  function LengthField(buf: seq<byte>): (n: nat)
    requires |buf| >= 16
  {
    var a: nat, b: nat, c: nat, e: nat := buf[4], buf[5], buf[6], buf[7];
    0x100_0000 * a + 0x1_0000 * b + 0x100 * c + e
  }

  /** In terms of the bytes: a buffer is refused exactly when a whole header is there and its first byte is
      not 0xD5, its second is not 1, or the length in bytes 4 to 7 is above 4080. */
  lemma RejectExactly(buf: seq<byte>)
    ensures Peek(buf).Reject? <==>
      && |buf| >= 16
      && (buf[0] != 0xD5 || buf[1] != 1 || LengthField(buf) > 4080)
  {
  }

  /** Otherwise the frame of header and length is taken once it is complete, and waited for until then. */
  lemma TakeExactly(buf: seq<byte>)
    requires |buf| >= 16 && !Peek(buf).Reject?
    ensures var size := 16 + LengthField(buf);
      Peek(buf) == if |buf| < size then Wait else Take(size)
  {
  }

  /** Each frame is what the loop takes with this frame and everything behind it in the buffer. */
  ghost predicate CutInOrder(frames: seq<seq<byte>>, rest: seq<byte>)
  {
    forall i: nat :: i < |frames| ==> CutAt(frames, rest, i)
  }

  ghost predicate CutAt(frames: seq<seq<byte>>, rest: seq<byte>, i: nat)
    requires i < |frames|
  {
    Peek(Flatten(frames[i..]) + rest) == Take(|frames[i]|)
  }

  /** Draining buf with this many free packets ends with these frames and this rest. */
  ghost predicate Drains(buf: seq<byte>, pool: nat, frames: seq<seq<byte>>, rest: seq<byte>, disconnect: bool)
  {
    && buf == Flatten(frames) + rest && CutInOrder(frames, rest)
    && |frames| <= pool && (|frames| == pool || !Peek(rest).Take?)
    && disconnect == Peek(rest).Reject?
  }

  lemma CutOneMore(frames: seq<seq<byte>>, p: seq<byte>, rest: seq<byte>)
    requires CutInOrder(frames, p + rest) && Peek(p + rest) == Take(|p|)
    ensures CutInOrder(frames + [p], rest)
    ensures Flatten(frames + [p]) + rest == Flatten(frames) + (p + rest)
  {
    FlattenLast(frames, p, rest);
    forall i: nat | i < |frames| + 1 ensures CutAt(frames + [p], rest, i) {
      if i < |frames| {
        assert CutAt(frames, p + rest, i);
        assert (frames + [p])[i..] == frames[i..] + [p];
        FlattenLast(frames[i..], p, rest);
      } else {
        assert (frames + [p])[i..] == [] + [p];
        FlattenLast([], p, rest);
        assert Flatten<byte>([]) + (p + rest) == p + rest;
      }
    }
  }

  lemma FlattenLast(frames: seq<seq<byte>>, p: seq<byte>, rest: seq<byte>)
    ensures Flatten(frames + [p]) + rest == Flatten(frames) + (p + rest)
  {
    FlattenAppend(frames, [p]);
    FlattenCons(p, []);
    assert [p] + [] == [p];
    assert Flatten(frames) + p + rest == Flatten(frames) + (p + rest);
  }

  // ---- The loop ----

  /** The checks of one pass of the loop, on a header copied out of the buffer. */
  method PeekBuffer(recvBuffer: CB.CircularBuffer) returns (v: Verdict)
    requires recvBuffer.Valid()
    ensures v == Peek(recvBuffer.Contents())
  {
    if recvBuffer.Size() < HEADER_SIZE { return Wait; }
    var ok, header := recvBuffer.Copy(HEADER_SIZE);
    HeaderOfFront(recvBuffer.Contents());
    var hdr := DecodeHeader(header);
    if hdr.magic != START_BYTE || hdr.version != CURRENT_VERSION { return Reject; }
    var packetSize := Sum32(HEADER_SIZE, hdr.payloadLength);
    if packetSize < HEADER_SIZE { return Reject; }
    if packetSize > PACKET_SIZE { return Reject; }
    if recvBuffer.Size() < packetSize { return Wait; }
    return Take(packetSize);
  }

  lemma HeaderOfFront(buf: seq<byte>)
    requires |buf| >= HEADER_SIZE
    ensures DecodeHeader(buf[..HEADER_SIZE]) == DecodeHeader(buf)
  {
  }

  /** The inner loop of the worker thread on a locked buffer. */
  method DrainFrames(recvBuffer: CB.CircularBuffer, pool: nat)
    returns (localQueue: seq<seq<byte>>, shouldDisconnect: bool)
    requires recvBuffer.Valid()
    modifies recvBuffer`stidx
    ensures recvBuffer.Valid()
    ensures Drains(old(recvBuffer.Contents()), pool, localQueue, recvBuffer.Contents(), shouldDisconnect)
  {
    localQueue := [];
    ghost var start, buf := recvBuffer.Contents(), recvBuffer.Contents();
    while true
      invariant recvBuffer.Valid() && buf == recvBuffer.Contents()
      invariant start == Flatten(localQueue) + buf && CutInOrder(localQueue, buf) && |localQueue| <= pool
      decreases |buf|
    {
      var v := PeekBuffer(recvBuffer);
      if !v.Take? { return localQueue, v.Reject?; }
      if |localQueue| == pool { return localQueue, false; }   // borrowPacket returned null
      var ok, p := recvBuffer.Consume(v.size);
      buf := recvBuffer.Contents();
      CutOneMore(localQueue, p, buf);
      localQueue := localQueue + [p];
    }
  }

  // ---- Valid streams ----

  /** A frame the sender may put on the wire. */
  predicate ValidFrame(f: seq<byte>)
  {
    && HEADER_SIZE <= |f| <= PACKET_SIZE
    && DecodeHeader(f).magic == START_BYTE && DecodeHeader(f).version == CURRENT_VERSION
    && DecodeHeader(f).payloadLength == |f| - HEADER_SIZE
  }

  ghost predicate AllValid(fs: seq<seq<byte>>)
  {
    forall f :: f in fs ==> ValidFrame(f)
  }

  /** Every serialized packet is a valid frame. */
  lemma SerializedFrameValid(tab: Crc32c.Table, ptype: nat, payload: seq<byte>)
    requires ptype < TWO16 && HEADER_SIZE + |payload| <= PACKET_SIZE
    ensures ValidFrame(Frame(tab, ptype, payload))
  {
    FrameAccepted(tab, ptype, payload);
  }

  /** In a stream of valid frames the loop takes the first frame once it is complete, and waits
      before that. */
  lemma PeekInStream(buf: seq<byte>, f: seq<byte>, tail: seq<byte>)
    requires ValidFrame(f) && buf <= f + tail
    ensures Peek(buf) == if |buf| < |f| then Wait else Take(|f|)
  {
    if |buf| >= HEADER_SIZE {
      assert forall i :: 0 <= i < HEADER_SIZE ==> buf[i] == f[i];
    }
  }

  /** The frames are the next frames of the stream fs, and rest begins what follows them. */
  ghost predicate NextFrames(frames: seq<seq<byte>>, rest: seq<byte>, fs: seq<seq<byte>>)
  {
    frames <= fs && rest <= Flatten(fs[|frames|..])
  }

  lemma StreamTail(f: seq<byte>, g: seq<byte>, rest: seq<byte>, tail: seq<byte>)
    requires g + rest <= f + tail && |g| == |f|
    ensures g == f && rest <= tail
  {
    var n := |g| + |rest|;
    assert g + rest == (f + tail)[..n];
    assert g == (f + tail)[..n][..|f|] == f;
    assert rest == (f + tail)[..n][|f|..] == tail[..|rest|];
  }

  lemma CutTail(frames: seq<seq<byte>>, rest: seq<byte>)
    requires CutInOrder(frames, rest) && frames != []
    ensures CutInOrder(frames[1..], rest)
  {
    forall i: nat | i < |frames[1..]| ensures CutAt(frames[1..], rest, i) {
      assert CutAt(frames, rest, i + 1);
      assert frames[1..][i..] == frames[i + 1..];
    }
  }

  lemma FrontCut(frames: seq<seq<byte>>, rest: seq<byte>)
    requires CutInOrder(frames, rest) && frames != []
    ensures Flatten(frames) + rest == frames[0] + (Flatten(frames[1..]) + rest)
    ensures Peek(Flatten(frames) + rest) == Take(|frames[0]|)
  {
    assert CutAt(frames, rest, 0);
    assert frames[0..] == frames;
  }

  lemma FirstCut(frames: seq<seq<byte>>, rest: seq<byte>, fs: seq<seq<byte>>)
    requires AllValid(fs)
    requires CutInOrder(frames, rest) && Flatten(frames) + rest <= Flatten(fs) && frames != []
    ensures fs != [] && frames[0] == fs[0] && Flatten(frames[1..]) + rest <= Flatten(fs[1..])
  {
    FrontCut(frames, rest);
    StreamNonEmpty(Flatten(frames) + rest, fs);
    FirstFrame(frames[0], Flatten(frames[1..]) + rest, fs[0], Flatten(fs[1..]));
  }

  lemma StreamNonEmpty(buf: seq<byte>, fs: seq<seq<byte>>)
    requires buf <= Flatten(fs) && Peek(buf).Take?
    ensures fs != [] && fs[0] in fs && Flatten(fs) == fs[0] + Flatten(fs[1..])
  {
  }

  lemma FirstFrame(g: seq<byte>, behind: seq<byte>, f: seq<byte>, tail: seq<byte>)
    requires ValidFrame(f) && g + behind <= f + tail && Peek(g + behind) == Take(|g|)
    ensures g == f && behind <= tail
  {
    PeekInStream(g + behind, f, tail);
    StreamTail(f, g, behind, tail);
  }

  lemma {:induction false} CutsAreNext(frames: seq<seq<byte>>, rest: seq<byte>, fs: seq<seq<byte>>)
    requires AllValid(fs)
    requires CutInOrder(frames, rest) && Flatten(frames) + rest <= Flatten(fs)
    ensures NextFrames(frames, rest, fs)
    decreases |frames|
  {
    if frames == [] {
      assert fs[0..] == fs && Flatten(frames) + rest == rest;
    } else {
      FirstCut(frames, rest, fs);
      CutTail(frames, rest);
      CutsAreNext(frames[1..], rest, fs[1..]);
      assert fs[1..][|frames| - 1..] == fs[|frames|..];
      assert frames == [frames[0]] + frames[1..] && fs == [fs[0]] + fs[1..];
    }
  }

  /** Draining part of a stream of valid frames yields its next frames, never drops the
      connection, and stops only for lack of packets or at an incomplete frame. */
  lemma DrainInStream(buf: seq<byte>, pool: nat, frames: seq<seq<byte>>, rest: seq<byte>, disconnect: bool,
                      fs: seq<seq<byte>>)
    requires AllValid(fs)
    requires Drains(buf, pool, frames, rest, disconnect) && buf <= Flatten(fs)
    ensures NextFrames(frames, rest, fs) && !disconnect
    ensures |frames| < pool && |frames| < |fs| ==> |rest| < |fs[|frames|]|
  {
    CutsAreNext(frames, rest, fs);
    var ahead := fs[|frames|..];
    if ahead == [] {
      assert rest == [];
    } else {
      PeekInStream(rest, ahead[0], Flatten(ahead[1..]));
    }
  }

  // ---- Connections ----

  datatype Read = Got(bytes: seq<byte>) | WouldBlock | Failed

  /** A connection: the bytes in its buffer, the frames handed on so far, all bytes received so
      far, and whether it is still open. */
  datatype Conn = Conn(buf: seq<byte>, emitted: seq<seq<byte>>, received: seq<byte>, open: bool)

  const NEW_CONNECTION: Conn := Conn([], [], [], true)

  /** One readable notification: what the receive call gave (at most the free space), and how
      many packets were free. A full buffer is not read into and not drained. */
  ghost predicate Notified(c: Conn, read: Read, pool: nat, c': Conn)
  {
    if !c.open || |c.buf| == CB.CAPACITY then c' == c else
    match read
    case WouldBlock => c' == c
    case Failed => c' == c.(open := false)
    case Got(bytes) =>
      if bytes == [] then c' == c.(open := false) else
      && |c.buf| + |bytes| <= CB.CAPACITY
      && c'.received == c.received + bytes
      && c.emitted <= c'.emitted
      && Drains(c.buf + bytes, pool, c'.emitted[|c.emitted|..], c'.buf, !c'.open)
  }

  /** The zero-byte-receive branch of the worker thread, up to the dispatch of the frames. */
  method OnReadable(recvBuffer: CB.CircularBuffer, read: Read, pool: nat, ghost c: Conn)
    returns (localQueue: seq<seq<byte>>, shouldDisconnect: bool, ghost c': Conn)
    requires recvBuffer.Valid() && c.open && c.buf == recvBuffer.Contents()
    requires read.Got? ==> |c.buf| + |read.bytes| <= CB.CAPACITY
    modifies recvBuffer`stidx, recvBuffer`endidx, recvBuffer.buffer
    ensures recvBuffer.Valid() && Notified(c, read, pool, c')
    ensures c'.buf == recvBuffer.Contents() && c'.emitted == c.emitted + localQueue
    ensures c'.open == !shouldDisconnect
  {
    localQueue, shouldDisconnect, c' := [], false, c;
    var bufs := recvBuffer.GetWriteBuffers();
    if bufs == [] { return; }
    match read
    case WouldBlock =>
    case Failed =>
      shouldDisconnect := true;
      c' := c.(open := false);
    case Got(bytes) =>
      if bytes == [] {
        shouldDisconnect := true;
        c' := c.(open := false);
        return;
      }
      recvBuffer.Fill(bufs, bytes);
      recvBuffer.CommitWrite(|bytes|);
      localQueue, shouldDisconnect := DrainFrames(recvBuffer, pool);
      c' := Conn(recvBuffer.Contents(), c.emitted + localQueue, c.received + bytes, !shouldDisconnect);
      assert c'.emitted[|c.emitted|..] == localQueue;
  }

  /** A notification on an open connection with room closes it exactly when the read failed, the peer closed,
      or the header in front of what is left is refused. */
  lemma ClosesExactly(c: Conn, read: Read, pool: nat, c': Conn)
    requires c.open && |c.buf| < CB.CAPACITY && Notified(c, read, pool, c')
    ensures !c'.open <==> read.Failed? || (read.Got? && (read.bytes == [] || Peek(c'.buf).Reject?))
  {
  }

  /** A run of a connection: states, and the read and the free packets of each notification. */
  ghost predicate IsRun(cs: seq<Conn>, inputs: seq<Read>, pools: seq<nat>)
  {
    && |cs| == |inputs| + 1 && |pools| == |inputs| && cs[0] == NEW_CONNECTION
    && forall i :: 0 <= i < |inputs| ==> Notified(cs[i], inputs[i], pools[i], cs[i + 1])
  }

  lemma StepConserves(c: Conn, read: Read, pool: nat, c': Conn)
    requires Notified(c, read, pool, c') && Flatten(c.emitted) + c.buf == c.received
    ensures Flatten(c'.emitted) + c'.buf == c'.received
  {
    if c'.received != c.received {
      var frames := c'.emitted[|c.emitted|..];
      assert c'.emitted == c.emitted + frames;
      EmitConserves(c.emitted, frames, c.buf, read.bytes, c'.buf);
    }
  }

  lemma EmitConserves(emitted: seq<seq<byte>>, frames: seq<seq<byte>>, buf: seq<byte>, bytes: seq<byte>, rest: seq<byte>)
    requires buf + bytes == Flatten(frames) + rest
    ensures Flatten(emitted + frames) + rest == Flatten(emitted) + buf + bytes
  {
    FlattenAppend(emitted, frames);
    assert Flatten(emitted) + Flatten(frames) + rest == Flatten(emitted) + (Flatten(frames) + rest);
    assert Flatten(emitted) + buf + bytes == Flatten(emitted) + (buf + bytes);
  }

  /** In every state of every run, the emitted frames followed by the buffered bytes are exactly
      the bytes received. */
  lemma {:induction false} RunConserves(cs: seq<Conn>, inputs: seq<Read>, pools: seq<nat>, i: nat)
    requires IsRun(cs, inputs, pools) && i < |cs|
    ensures Flatten(cs[i].emitted) + cs[i].buf == cs[i].received
  {
    if i == 0 {
    } else {
      RunConserves(cs, inputs, pools, i - 1);
      StepConserves(cs[i - 1], inputs[i - 1], pools[i - 1], cs[i]);
    }
  }

  lemma StepInStream(c: Conn, read: Read, pool: nat, c': Conn, fs: seq<seq<byte>>)
    requires AllValid(fs)
    requires Notified(c, read, pool, c') && c.open && NextFrames(c.emitted, c.buf, fs)
    requires Flatten(c.emitted) + c.buf == c.received && c'.received <= Flatten(fs)
    requires read.Got? ==> read.bytes != []
    requires !read.Failed?
    ensures c'.open && NextFrames(c'.emitted, c'.buf, fs)
    ensures c'.received != c.received && |c'.emitted| < |c.emitted| + pool && |c'.emitted| < |fs| ==>
      |c'.buf| < |fs[|c'.emitted|]|
  {
    if c'.received != c.received {
      var frames := c'.emitted[|c.emitted|..];
      assert c'.emitted == c.emitted + frames;
      ReadInStream(c.emitted, c.buf, read.bytes, pool, frames, c'.buf, !c'.open, fs);
    }
  }

  lemma ReadInStream(emitted: seq<seq<byte>>, buf: seq<byte>, bytes: seq<byte>, pool: nat,
                     frames: seq<seq<byte>>, rest: seq<byte>, disconnect: bool, fs: seq<seq<byte>>)
    requires AllValid(fs) && NextFrames(emitted, buf, fs) && Flatten(emitted) + buf + bytes <= Flatten(fs)
    requires Drains(buf + bytes, pool, frames, rest, disconnect)
    ensures NextFrames(emitted + frames, rest, fs) && !disconnect
    ensures |frames| < pool && |emitted + frames| < |fs| ==> |rest| < |fs[|emitted + frames|]|
  {
    var ahead := fs[|emitted|..];
    StreamSplit(emitted, buf, bytes, fs);
    assert AllValid(ahead);
    DrainInStream(buf + bytes, pool, frames, rest, disconnect, ahead);
    LaterFrames(emitted, frames, rest, fs);
  }

  lemma LaterFrames(emitted: seq<seq<byte>>, frames: seq<seq<byte>>, rest: seq<byte>, fs: seq<seq<byte>>)
    requires emitted <= fs && NextFrames(frames, rest, fs[|emitted|..])
    ensures NextFrames(emitted + frames, rest, fs)
    ensures |emitted + frames| < |fs| ==> fs[|emitted + frames|] == fs[|emitted|..][|frames|]
  {
    var k := |emitted|;
    assert emitted + frames == fs[..k + |frames|] by { assert frames == fs[k..][..|frames|]; }
    assert fs[k..][|frames|..] == fs[k + |frames|..];
  }

  lemma StreamSplit(emitted: seq<seq<byte>>, buf: seq<byte>, bytes: seq<byte>, fs: seq<seq<byte>>)
    requires emitted <= fs && Flatten(emitted) + buf + bytes <= Flatten(fs)
    ensures buf + bytes <= Flatten(fs[|emitted|..])
  {
    var k := |emitted|;
    assert fs == fs[..k] + fs[k..] && emitted == fs[..k];
    FlattenAppend(fs[..k], fs[k..]);
    assert Flatten(emitted) + buf + bytes == Flatten(emitted) + (buf + bytes);
    StreamTail(Flatten(fs[..k]), Flatten(emitted), buf + bytes, Flatten(fs[k..]));
  }

  /** Every input is data, not a failure or a close. */
  ghost predicate AllData(inputs: seq<Read>)
  {
    forall i :: 0 <= i < |inputs| ==> !inputs[i].Failed? && (inputs[i].Got? ==> inputs[i].bytes != [])
  }

  /** However the concatenation of valid frames is split into reads, and however short the pool
      is at times: in every state the connection is open and the frames emitted so far are the
      first frames of the stream, in order. */
  lemma {:induction false} RunInStream(cs: seq<Conn>, inputs: seq<Read>, pools: seq<nat>, fs: seq<seq<byte>>, i: nat)
    requires IsRun(cs, inputs, pools) && AllData(inputs) && i < |cs|
    requires AllValid(fs)
    requires forall j :: 0 <= j <= i ==> cs[j].received <= Flatten(fs)
    ensures cs[i].open && NextFrames(cs[i].emitted, cs[i].buf, fs)
  {
    if i == 0 {
      assert fs[0..] == fs;
    } else {
      RunInStream(cs, inputs, pools, fs, i - 1);
      RunConserves(cs, inputs, pools, i - 1);
      StepInStream(cs[i - 1], inputs[i - 1], pools[i - 1], cs[i], fs);
    }
  }

  /** Once the whole stream has arrived, by a read after which a packet was still free, exactly
      the frames of the stream have been emitted and nothing stays in the buffer. */
  lemma RunDeliversAll(cs: seq<Conn>, inputs: seq<Read>, pools: seq<nat>, fs: seq<seq<byte>>, i: nat)
    requires IsRun(cs, inputs, pools) && AllData(inputs) && 0 < i < |cs|
    requires AllValid(fs)
    requires forall j :: 0 <= j <= i ==> cs[j].received <= Flatten(fs)
    requires cs[i].received == Flatten(fs) != cs[i - 1].received
    requires |cs[i].emitted| < |cs[i - 1].emitted| + pools[i - 1]
    ensures cs[i].emitted == fs && cs[i].buf == []
  {
    RunInStream(cs, inputs, pools, fs, i - 1);
    RunConserves(cs, inputs, pools, i - 1);
    StepInStream(cs[i - 1], inputs[i - 1], pools[i - 1], cs[i], fs);
    RunConserves(cs, inputs, pools, i);
    NothingLeft(cs[i].emitted, cs[i].buf, fs);
  }

  lemma NothingLeft(emitted: seq<seq<byte>>, buf: seq<byte>, fs: seq<seq<byte>>)
    requires emitted <= fs && Flatten(emitted) + buf == Flatten(fs)
    requires |emitted| < |fs| ==> |buf| < |fs[|emitted|]|
    ensures emitted == fs && buf == []
  {
    var k := |emitted|;
    assert fs == fs[..k] + fs[k..] && emitted == fs[..k];
    FlattenAppend(fs[..k], fs[k..]);
    assert |buf| == |Flatten(fs[k..])|;
  }

  // ---- Progress ----

  /** After a read that leaves a packet free, less than one packet stays behind, so the next
      notification can read again. */
  lemma NeverWedgesWithAFreePacket(c: Conn, bytes: seq<byte>, pool: nat, c': Conn)
    requires c.open && bytes != [] && |c.buf| < CB.CAPACITY
    requires Notified(c, Got(bytes), pool, c') && c'.open
    requires |c'.emitted| < |c.emitted| + pool
    ensures |c'.buf| < PACKET_SIZE < CB.CAPACITY
  {
  }

  /** While a packet is left after every notification, an open connection never holds a whole
      packet's worth of bytes back, so every read finds room. */
  lemma {:induction false} RunNeverWedges(cs: seq<Conn>, inputs: seq<Read>, pools: seq<nat>, i: nat)
    requires IsRun(cs, inputs, pools) && i < |cs| && cs[i].open
    requires forall j :: 0 <= j < i ==> |cs[j + 1].emitted| < |cs[j].emitted| + pools[j]
    ensures |cs[i].buf| < PACKET_SIZE < CB.CAPACITY
  {
    if i == 0 {
    } else {
      var c, c' := cs[i - 1], cs[i];
      assert Notified(c, inputs[i - 1], pools[i - 1], c');
      RunNeverWedges(cs, inputs, pools, i - 1);
      if c' != c { NeverWedgesWithAFreePacket(c, inputs[i - 1].bytes, pools[i - 1], c'); }
    }
  }

  /** A full buffer is stuck for good: no later notification reads or drains it, however many
      packets have become free again. */
  lemma {:induction false} FullBufferIsStuck(cs: seq<Conn>, inputs: seq<Read>, pools: seq<nat>, i: nat, j: nat)
    requires IsRun(cs, inputs, pools) && i <= j < |cs| && |cs[i].buf| == CB.CAPACITY
    ensures cs[j] == cs[i]
    decreases j - i
  {
    if i < j { FullBufferIsStuck(cs, inputs, pools, i, j - 1); }
  }

  /** Known before the loop runs: the read fills the buffer to the last byte, no packet is free, and
      the header in front is not refused. */
  predicate Fills(c: Conn, read: Read, pool: nat)
  {
    && c.open && |c.buf| < CB.CAPACITY && read.Got? && read.bytes != []
    && |c.buf| + |read.bytes| == CB.CAPACITY && pool == 0 && !Peek(c.buf + read.bytes).Reject?
  }

  /** A notification leaves an open connection with a full buffer if and only if that guard held. */
  lemma FillsExactly(c: Conn, read: Read, pool: nat, c': Conn)
    requires |c.buf| < CB.CAPACITY && Notified(c, read, pool, c')
    ensures c'.open && |c'.buf| == CB.CAPACITY <==> Fills(c, read, pool)
  {
    if c.open && read.Got? && read.bytes != [] {
      var frames := c'.emitted[|c.emitted|..];
      assert Drains(c.buf + read.bytes, pool, frames, c'.buf, !c'.open);
      if frames == [] {
        assert Flatten(frames) + c'.buf == c'.buf;
      } else {
        FrontCut(frames, c'.buf);
      }
    }
  }

  /** In every run, an open connection has a full buffer, and so is stuck for good, if and only if some
      earlier notification met the guard. */
  lemma {:induction false} RunWedgesExactly(cs: seq<Conn>, inputs: seq<Read>, pools: seq<nat>, i: nat)
    requires IsRun(cs, inputs, pools) && i < |cs|
    ensures cs[i].open && |cs[i].buf| == CB.CAPACITY <==>
      exists j :: 0 <= j < i && Fills(cs[j], inputs[j], pools[j])
  {
    if i == 0 {
    } else {
      RunWedgesExactly(cs, inputs, pools, i - 1);
      var c, c' := cs[i - 1], cs[i];
      assert Notified(c, inputs[i - 1], pools[i - 1], c');
      NeverOverfull(cs, inputs, pools, i - 1);
      if |c.buf| < CB.CAPACITY { FillsExactly(c, inputs[i - 1], pools[i - 1], c'); }
    }
  }

  lemma {:induction false} NeverOverfull(cs: seq<Conn>, inputs: seq<Read>, pools: seq<nat>, i: nat)
    requires IsRun(cs, inputs, pools) && i < |cs|
    ensures |cs[i].buf| <= CB.CAPACITY
  {
    if i == 0 {
    } else {
      NeverOverfull(cs, inputs, pools, i - 1);
      assert Notified(cs[i - 1], inputs[i - 1], pools[i - 1], cs[i]);
    }
  }

  /** Four full-size packets, read at once while no packet is free. */
  function FullRead(f: seq<byte>): (bytes: seq<byte>)
    requires |f| == PACKET_SIZE
    ensures |bytes| == CB.CAPACITY
  {
    f + f + (f + f)
  }

  /** A run that gets stuck on nothing but valid frames: the stream is the concatenation of four valid
      frames, none of which is ever emitted, whatever happens later. */
  lemma ValidStreamWedges(f: seq<byte>)
    requires ValidFrame(f) && |f| == PACKET_SIZE
    ensures var bytes := FullRead(f); var c := Conn(bytes, [], bytes, true);
      && bytes == Flatten([f, f, f, f]) && AllValid([f, f, f, f])
      && IsRun([NEW_CONNECTION, c], [Got(bytes)], [0])
      && |c.buf| == CB.CAPACITY
      && forall read, pool, c' :: Notified(c, read, pool, c') ==> c' == c
  {
    FlattenFour(f);
    PeekInStream(FullRead(f), f, f + (f + f));
    WedgingRead(FullRead(f));
  }

  lemma NothingTaken(buf: seq<byte>)
    requires !Peek(buf).Reject?
    ensures Drains(buf, 0, [], buf, false)
  {
    assert Flatten<byte>([]) + buf == buf;
  }

  lemma WedgingRead(bytes: seq<byte>)
    requires |bytes| == CB.CAPACITY && !Peek(bytes).Reject?
    ensures IsRun([NEW_CONNECTION, Conn(bytes, [], bytes, true)], [Got(bytes)], [0])
  {
    var c := Conn(bytes, [], bytes, true);
    NothingTaken(bytes);
    assert [] + bytes == bytes && c.emitted[|NEW_CONNECTION.emitted|..] == [];
    assert Notified(NEW_CONNECTION, Got(bytes), 0, c);
  }

  lemma FlattenFour(f: seq<byte>)
    requires |f| == PACKET_SIZE
    ensures Flatten([f, f, f, f]) == FullRead(f) == f + (f + (f + f))
  {
    assert [f, f, f, f][1..] == [f, f, f] && [f, f, f][1..] == [f, f] && [f, f][1..] == [f] && [f][1..] == [];
    assert Flatten([f]) == f + Flatten<byte>([]) == f;
    assert Flatten([f, f]) == f + f;
    assert Flatten([f, f, f]) == f + (f + f);
  }

  /** Such frames exist: a packet with 4080 bytes of payload is one. */
  lemma FullSizeFrame(tab: Crc32c.Table, payload: seq<byte>)
    requires |payload| == PACKET_SIZE - HEADER_SIZE
    ensures ValidFrame(Frame(tab, PKT_FILE_CHUNK, payload)) && |Frame(tab, PKT_FILE_CHUNK, payload)| == PACKET_SIZE
  {
    SerializedFrameValid(tab, PKT_FILE_CHUNK, payload);
  }
}
