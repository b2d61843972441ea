/** A chunked upload as a protocol between the client's upload worker and the server's transfer
    handlers, over one FIFO channel in each direction. Chunks may be dropped for a bad checksum,
    the worker may stop at any step, and an upload may be resumed any number of times. */
module UploadProtocol {
  import opened Common
  import opened UploadPieces

  const MAX_FILE: nat := 5242880     // 5 MB
  const ACK_LIMIT: nat := 1014       // missing entries that fit in one packet

  /** Client to server; FILE_START carries the declared size. */
  datatype Up = Start(total: nat) | Chunk(offset: nat, data: seq<byte>) | RoundEnd(round: nat, count: nat) | End

  /** Server to client */
  datatype Down = Response(resume: nat) | Ack(round: nat, missing: seq<nat>) | Status(success: bool)

  // ---- The receiver ----

  datatype Transfer = Transfer(totalSize: nat, receivedOffset: nat, currentRound: nat, roundBuffer: seq<seq<byte>>)

  function EmptyRound(): (b: seq<seq<byte>>)
  {
    seq(PER_ROUND, i => [])
  }

  /** A transfer opened on the bytes already on disk. */
  function Opened(total: nat, onDisk: nat): (t: Transfer)
  {
    Transfer(total, onDisk, onDisk / ROUND, EmptyRound())
  }

  /** A chunk with a good checksum goes to its slot unless that is taken. */
  function StoreChunk(t: Transfer, offset: nat, data: seq<byte>): (t': Transfer)
  {
    var i := offset / CHUNK % PER_ROUND;
    if i >= |t.roundBuffer| || t.roundBuffer[i] != [] then t
    else t.(roundBuffer := t.roundBuffer[i := data])
  }

  /** The round is written to disk and the next one opened. */
  function FinishRound(t: Transfer): (t': Transfer)
  {
    t.(receivedOffset := t.receivedOffset + |Flatten(t.roundBuffer)|, currentRound := t.currentRound + 1,
       roundBuffer := seq(|t.roundBuffer|, i => []))
  }

  /** An acknowledgement that does not fit in a packet never arrives as one. */
  function SendAck(round: nat, missing: seq<nat>): (d: seq<Down>)
  {
    if |missing| <= ACK_LIMIT then [Ack(round, missing)] else []
  }

  // ---- The sender ----

  /** Where the upload worker stands: not running; at the top of its loop; with chunks to send before
      ROUND_END; about to reset ackReceived; waiting for the acknowledgement. */
  datatype Pc = Idle | LoopTop | Sending(todo: seq<nat>) | ResetAck | WaitAck

  /** base is the value of bytesSent when the current round was filled. */
  datatype Sender = Sender(pc: Pc, bytesSent: nat, currentRound: nat, base: nat, chunks: nat,
                           roundOffsets: seq<nat>, roundBuffer: seq<seq<byte>>,
                           missing: seq<nat>, ackReceived: bool)

  function FilledBuffer(file: File, base: nat): (b: seq<seq<byte>>)
    requires base < |file|
  {
    seq(PER_ROUND, i requires 0 <= i => if i < ChunkCount(file, base) then Piece(file, base, i) else [])
  }

  function FilledOffsets(file: File, base: nat, previous: seq<nat>): (o: seq<nat>)
    requires base < |file| && |previous| == PER_ROUND
  {
    seq(PER_ROUND, i requires 0 <= i < PER_ROUND => if i < ChunkCount(file, base) then base + CHUNK * i else previous[i])
  }

  function Indices(n: nat): (s: seq<nat>)
    ensures |s| == n && (forall i :: 0 <= i < n ==> s[i] == i) && forall i: nat :: i in s <==> i < n
  {
    if n == 0 then [] else Indices(n - 1) + [n - 1]
  }

  // ---- The system ----

  /** Besides the two parties, the channels and the disk: rounds begun, chunks dropped, ROUND_END
      packets sent, and the missing lists of the receiver's current round. */
  datatype State = State(disk: seq<byte>, recv: Option<Transfer>, up: seq<Up>, down: seq<Down>, snd: Sender,
                         rounds: nat, drops: nat, ends: nat, reported: seq<seq<nat>>)

  /** What happens next: a FILE_START is sent; the worker stops (timeout, or the connection breaks
      and queued packets are lost); the worker takes its next action; the server handles the next
      packet, a chunk's checksum being good or not; the client handles the next packet. */
  datatype Event = Begin | Stop(loseUp: bool, loseDown: bool) | Act | Receive(corrupt: bool) | Deliver

  function Init(offsets: seq<nat>): (s: State)
  {
    State([], None, [], [], Sender(Idle, 0, 0, 0, 0, offsets, EmptyRound(), [], false), 0, 0, 0, [])
  }

  /** FILE_START is sent when no worker runs and no earlier one waits for its answer. */
  predicate MayBegin(s: State)
  {
    s.snd.pc.Idle? && (forall m :: m in s.up ==> !m.Start?) && (forall m :: m in s.down ==> !m.Response?)
  }

  function DoBegin(file: File, s: State): (s': State)
  {
    if MayBegin(s) then s.(up := s.up + [Start(|file|)]) else s
  }

  function DoStop(s: State, loseUp: bool, loseDown: bool): (s': State)
  {
    s.(snd := s.snd.(pc := Idle), up := if loseUp then [] else s.up, down := if loseDown then [] else s.down)
  }

  function DoLoopTop(file: File, s: State): (s': State)
    requires |s.snd.roundOffsets| == PER_ROUND
  {
    var base := s.snd.bytesSent;
    if base < |file| then
      s.(rounds := s.rounds + 1,
         snd := s.snd.(pc := Sending(Indices(ChunkCount(file, base))), bytesSent := base + RoundLength(file, base),
                       base := base, chunks := ChunkCount(file, base),
                       roundOffsets := FilledOffsets(file, base, s.snd.roundOffsets),
                       roundBuffer := FilledBuffer(file, base)))
    else
      s.(up := s.up + [End], snd := s.snd.(pc := Idle))
  }

  function DoSend(s: State, todo: seq<nat>): (s': State)
    requires |s.snd.roundOffsets| == |s.snd.roundBuffer| == PER_ROUND && s.snd.chunks <= PER_ROUND
  {
    if todo == [] then
      s.(up := s.up + [RoundEnd(s.snd.currentRound, s.snd.chunks)], ends := s.ends + 1,
         snd := s.snd.(pc := ResetAck))
    else
      var i, next := todo[0], s.snd.(pc := Sending(todo[1..]));
      if i >= s.snd.chunks then s.(snd := next)
      else s.(up := s.up + [Chunk(s.snd.roundOffsets[i], s.snd.roundBuffer[i])], snd := next)
  }

  function DoWait(s: State): (s': State)
  {
    if !s.snd.ackReceived then s
    else if s.snd.missing == [] then s.(snd := s.snd.(pc := LoopTop, currentRound := s.snd.currentRound + 1))
    else s.(snd := s.snd.(pc := Sending(s.snd.missing)))
  }

  function DoAct(file: File, s: State): (s': State)
    requires Shaped(s)
  {
    match s.snd.pc
    case Idle => s
    case LoopTop => DoLoopTop(file, s)
    case Sending(todo) => DoSend(s, todo)
    case ResetAck => s.(snd := s.snd.(pc := WaitAck, ackReceived := false))
    case WaitAck => DoWait(s)
  }

  function DoRoundEnd(s: State, t: Transfer, round: nat, count: nat): (s': State)
  {
    if round != t.currentRound then s.(down := s.down + SendAck(t.currentRound, []))
    else if count > |t.roundBuffer| then s   // reads past the buffer: shown unreachable
    else
      var m := Missing(t.roundBuffer, count);
      if m == [] then
        s.(disk := s.disk + Flatten(t.roundBuffer), recv := Some(FinishRound(t)),
           down := s.down + SendAck(round, []), reported := [])
      else
        s.(down := s.down + SendAck(round, m), reported := s.reported + [m])
  }

  function DoReceive(s: State, corrupt: bool): (s': State)
  {
    if s.up == [] then s else
    var r := s.(up := s.up[1..]);
    match s.up[0]
    case Start(total) =>
      if total > MAX_FILE then r else
      r.(recv := Some(Opened(total, |s.disk|)), down := s.down + [Response(|s.disk|)], reported := [])
    case Chunk(offset, data) =>
      if corrupt then r.(drops := s.drops + 1)
      else if s.recv.None? then r
      else r.(recv := Some(StoreChunk(s.recv.value, offset, data)))
    case RoundEnd(round, count) =>
      if s.recv.None? then r else DoRoundEnd(r, s.recv.value, round, count)
    case End =>
      if s.recv.None? then r else
      r.(recv := None, reported := [],
         down := s.down + [Status(s.recv.value.receivedOffset == s.recv.value.totalSize)])
  }

  function DoDeliver(s: State): (s': State)
  {
    if s.down == [] then s else
    var r := s.(down := s.down[1..]);
    match s.down[0]
    case Response(resume) =>
      if !s.snd.pc.Idle? then s   // starting a worker waits for the running one
      else r.(snd := s.snd.(pc := LoopTop, bytesSent := resume, currentRound := resume / ROUND))
    case Ack(round, missing) =>
      if round != s.snd.currentRound then r
      else r.(snd := s.snd.(missing := missing, ackReceived := true))
    case Status(_) => r
  }

  predicate Shaped(s: State)
  {
    |s.snd.roundOffsets| == |s.snd.roundBuffer| == PER_ROUND && s.snd.chunks <= PER_ROUND
  }

  function Step(file: File, s: State, e: Event): (s': State)
    requires Shaped(s)
    ensures Shaped(s')
  {
    match e
    case Begin => DoBegin(file, s)
    case Stop(loseUp, loseDown) => DoStop(s, loseUp, loseDown)
    case Act => DoAct(file, s)
    case Receive(corrupt) => DoReceive(s, corrupt)
    case Deliver => DoDeliver(s)
  }

  function Run(file: File, s: State, events: seq<Event>): (s': State)
    requires Shaped(s)
    ensures Shaped(s')
  {
    if events == [] then s
    else Step(file, Run(file, s, events[..|events| - 1]), events[|events| - 1])
  }

  // ---- The invariant ----

  /** What is on disk is a prefix of the file that ends at a round boundary. */
  ghost predicate DiskOk(file: File, s: State)
  {
    s.disk <= file && Boundary(file, |s.disk|)
  }

  ghost predicate TransferOk(file: File, onDisk: nat, t: Transfer)
  {
    && t.totalSize == |file| <= MAX_FILE && t.receivedOffset == onDisk && |t.roundBuffer| == PER_ROUND
    && (onDisk < |file| ==> ROUND * t.currentRound == onDisk && Slots(file, onDisk, t.roundBuffer))
    && (onDisk >= |file| ==> forall i :: 0 <= i < PER_ROUND ==> t.roundBuffer[i] == [])
  }

  ghost predicate ReceiverOk(file: File, s: State)
  {
    s.recv.Some? ==> TransferOk(file, |s.disk|, s.recv.value)
  }

  /** Chunk i of the round that starts at base, as a message. */
  function ChunkMsg(file: File, base: nat, i: nat): (m: Up)
    requires base < |file| && i < ChunkCount(file, base)
  {
    Chunk(base + CHUNK * i, Piece(file, base, i))
  }

  ghost predicate IsChunkMsg(file: File, base: nat, m: Up)
    requires base < |file|
  {
    exists i: nat :: i < ChunkCount(file, base) && m == ChunkMsg(file, base, i)
  }

  ghost predicate AllChunks(up: seq<Up>)
  {
    forall i :: 0 <= i < |up| ==> up[i].Chunk?
  }

  /** Client-to-server traffic: chunks of the receiver's round, then at most one of ROUND_END and
      FILE_END, then at most one FILE_START. */
  ghost predicate UpOk(file: File, s: State, i: nat)
    requires i < |s.up|
  {
    match s.up[i]
    case Start(total) => total == |file| && i == |s.up| - 1 && s.snd.pc.Idle?
    case Chunk(_, _) =>
      s.recv.Some? && |s.disk| < |file| && IsChunkMsg(file, |s.disk|, s.up[i]) && AllChunks(s.up[..i])
    case RoundEnd(round, count) =>
      && s.recv.Some? && |s.disk| < |file| && round == s.recv.value.currentRound
      && count == ChunkCount(file, |s.disk|)
      && AllChunks(s.up[..i]) && (i == |s.up| - 1 || (i == |s.up| - 2 && s.up[i + 1].Start?))
    case End =>
      && s.recv.Some? && |s.disk| == |file|
      && i == 0 && (|s.up| == 1 || (|s.up| == 2 && s.up[1].Start?))
  }

  ghost predicate DownOk(s: State, i: nat)
    requires i < |s.down|
  {
    match s.down[i]
    case Response(resume) =>
      i == |s.down| - 1 && s.up == [] && s.snd.pc.Idle? && s.recv.Some? && resume == |s.disk|
    case Ack(_, _) => true
    case Status(success) => success
  }

  /** The sender's round is the one that starts at base. */
  ghost predicate RoundOk(file: File, snd: Sender)
  {
    && snd.base < |file| && snd.base % ROUND == 0 && ROUND * snd.currentRound == snd.base
    && snd.chunks == ChunkCount(file, snd.base) && snd.bytesSent == snd.base + RoundLength(file, snd.base)
    && |snd.roundOffsets| == |snd.roundBuffer| == PER_ROUND
    && forall i :: 0 <= i < snd.chunks ==>
         snd.roundOffsets[i] == snd.base + CHUNK * i && snd.roundBuffer[i] == Piece(file, snd.base, i)
  }

  /** An empty missing list says that the round is on disk; any other names every empty slot. */
  ghost predicate AckOk(file: File, s: State, missing: seq<nat>)
  {
    if missing == [] then |s.disk| == s.snd.bytesSent
    else
      && |s.disk| == s.snd.base && s.recv.Some? && |s.recv.value.roundBuffer| == PER_ROUND
      && (forall i :: i in missing ==> i < s.snd.chunks)
      && forall i :: 0 <= i < PER_ROUND && i < s.snd.chunks ==> i in missing || s.recv.value.roundBuffer[i] != []
  }

  /** ROUND_END is on its way, or its acknowledgement is, or neither. */
  ghost predicate EndInFlight(s: State)
  {
    s.up != [] && s.up[|s.up| - 1].RoundEnd? && s.down == [] && |s.disk| == s.snd.base
  }

  ghost predicate AckInFlight(file: File, s: State)
  {
    s.up == [] && |s.down| == 1 && s.down[0].Ack? && s.down[0].round == s.snd.currentRound
    && AckOk(file, s, s.down[0].missing)
  }

  ghost predicate Quiet(s: State)
  {
    s.up == [] && s.down == []
  }

  ghost predicate SenderOk(file: File, s: State)
  {
    match s.snd.pc
    case Idle => true
    case LoopTop =>
      && s.recv.Some? && Quiet(s) && s.snd.bytesSent == |s.disk|
      && (|s.disk| < |file| ==> ROUND * s.snd.currentRound == |s.disk|)
    case Sending(todo) =>
      && RoundOk(file, s.snd) && s.recv.Some? && |s.disk| == s.snd.base && s.down == [] && AllChunks(s.up)
      && forall i :: i in todo ==> i < s.snd.chunks
    case ResetAck =>
      && RoundOk(file, s.snd) && s.recv.Some? && (EndInFlight(s) || AckInFlight(file, s) || Quiet(s))
    case WaitAck =>
      && RoundOk(file, s.snd) && s.recv.Some? && (EndInFlight(s) || AckInFlight(file, s) || Quiet(s))
      && (s.snd.ackReceived ==> Quiet(s) && AckOk(file, s, s.snd.missing))
  }

  /** Every chunk of the round is still to be sent, in its slot, or on its way. */
  ghost predicate Covered(file: File, s: State, todo: seq<nat>)
    requires s.snd.base < |file| && s.recv.Some? && |s.recv.value.roundBuffer| == PER_ROUND
  {
    forall i: nat :: i < ChunkCount(file, s.snd.base) ==> Accounted(file, s, todo, i)
  }

  ghost predicate Accounted(file: File, s: State, todo: seq<nat>, i: nat)
    requires s.snd.base < |file| && s.recv.Some? && |s.recv.value.roundBuffer| == PER_ROUND
    requires i < ChunkCount(file, s.snd.base)
  {
    i in todo || s.recv.value.roundBuffer[i] != [] || ChunkMsg(file, s.snd.base, i) in s.up
  }

  /** What is still allowed: rounds begun plus chunks dropped, less the ROUND_END packets sent. */
  function Slack(s: State): int
  {
    s.rounds + s.drops - s.ends
  }

  /** A drop pays for the ROUND_END that reports it. */
  ghost predicate LedgerOk(file: File, s: State)
    requires ReceiverOk(file, s) && SenderOk(file, s)
  {
    && Slack(s) >= 0
    && match s.snd.pc
       case Idle => true
       case LoopTop => true
       case Sending(todo) => Slack(s) >= 1 && (Slack(s) >= 2 || Covered(file, s, todo))
       case ResetAck => AwaitLedger(file, s)
       case WaitAck => AwaitLedger(file, s) && (s.snd.ackReceived && s.snd.missing != [] ==> Slack(s) >= 1)
  }

  ghost predicate AwaitLedger(file: File, s: State)
    requires s.snd.base < |file| && s.recv.Some? && |s.recv.value.roundBuffer| == PER_ROUND
  {
    && (EndInFlight(s) ==> Slack(s) >= 1 || Covered(file, s, []))
    && (AckInFlight(file, s) && s.down[0].missing != [] ==> Slack(s) >= 1)
  }

  ghost predicate Subset(a: seq<nat>, b: seq<nat>)
  {
    forall i :: i in a ==> i in b
  }

  /** The missing lists of a round shrink, and slots once filled stay filled. */
  ghost predicate ReportsOk(file: File, s: State)
    requires ReceiverOk(file, s)
  {
    && (forall k :: 0 < k < |s.reported| ==> Subset(s.reported[k], s.reported[k - 1]))
    && (s.reported != [] ==>
          && s.recv.Some? && |s.disk| < |file|
          && forall i :: 0 <= i < PER_ROUND && i < ChunkCount(file, |s.disk|) ==>
               i in s.reported[|s.reported| - 1] || s.recv.value.roundBuffer[i] != [])
  }

  ghost predicate Inv(file: File, s: State)
  {
    && Shaped(s) && DiskOk(file, s) && ReceiverOk(file, s)
    && (forall i: nat :: i < |s.up| ==> UpOk(file, s, i))
    && (forall i: nat :: i < |s.down| ==> DownOk(s, i))
    && SenderOk(file, s) && LedgerOk(file, s) && ReportsOk(file, s)
  }

  lemma InitInv(file: File, offsets: seq<nat>)
    requires |offsets| == PER_ROUND
    ensures Inv(file, Init(offsets))
  {
  }

  // ---- Steps that start or stop the worker ----

  lemma BeginKeeps(file: File, s: State)
    requires Inv(file, s)
    ensures Inv(file, DoBegin(file, s))
  {
    var s' := DoBegin(file, s);
    forall i: nat | i < |s'.up| ensures UpOk(file, s', i) {
      if i < |s.up| { assert UpOk(file, s, i) && s'.up[i] == s.up[i] && s'.up[..i] == s.up[..i]; }
    }
    forall i: nat | i < |s'.down| ensures DownOk(s', i) { assert DownOk(s, i) && s.down[i] in s.down; }
  }

  lemma StopKeeps(file: File, s: State, loseUp: bool, loseDown: bool)
    requires Inv(file, s)
    ensures Inv(file, DoStop(s, loseUp, loseDown))
  {
    var s' := DoStop(s, loseUp, loseDown);
    forall i: nat | i < |s'.up| ensures UpOk(file, s', i) { assert UpOk(file, s, i); }
    forall i: nat | i < |s'.down| ensures DownOk(s', i) { assert DownOk(s, i); }
  }

  // ---- Actions of the worker ----

  lemma FillKeeps(file: File, s: State)
    requires Inv(file, s) && s.snd.pc.LoopTop? && s.snd.bytesSent < |file|
    ensures Inv(file, DoLoopTop(file, s))
  {
    var s' := DoLoopTop(file, s);
    assert RoundOk(file, s'.snd);
    assert Covered(file, s', s'.snd.pc.todo);
  }

  lemma SendEndKeeps(file: File, s: State)
    requires Inv(file, s) && s.snd.pc.LoopTop? && s.snd.bytesSent >= |file|
    ensures Inv(file, DoLoopTop(file, s))
  {
    var s' := DoLoopTop(file, s);
    assert s'.up == [End];
  }

  lemma SendChunkCovers(file: File, s: State)
    requires Inv(file, s) && s.snd.pc.Sending? && s.snd.pc.todo != [] && Covered(file, s, s.snd.pc.todo)
    ensures Covered(file, DoSend(s, s.snd.pc.todo), s.snd.pc.todo[1..])
  {
    var todo, s' := s.snd.pc.todo, DoSend(s, s.snd.pc.todo);
    var k := todo[0];
    assert k in todo && todo == [k] + todo[1..];
    assert s'.up == s.up + [ChunkMsg(file, s.snd.base, k)];
    forall i: nat | i < ChunkCount(file, s.snd.base) ensures Accounted(file, s', todo[1..], i) {
      assert Accounted(file, s, todo, i);
    }
  }

  lemma SendChunkKeeps(file: File, s: State)
    requires Inv(file, s) && s.snd.pc.Sending? && s.snd.pc.todo != []
    ensures Inv(file, DoSend(s, s.snd.pc.todo))
  {
    var todo, s' := s.snd.pc.todo, DoSend(s, s.snd.pc.todo);
    var k := todo[0];
    assert k in todo;
    assert s'.up == s.up + [ChunkMsg(file, s.snd.base, k)];
    forall i: nat | i < |s'.up| ensures UpOk(file, s', i) {
      if i < |s.up| { assert UpOk(file, s, i) && s'.up[..i] == s.up[..i]; } else { assert s'.up[..i] == s.up; }
    }
    assert forall i :: i in todo[1..] ==> i in todo;
    if Covered(file, s, todo) { SendChunkCovers(file, s); }
  }

  lemma SendRoundEndKeeps(file: File, s: State)
    requires Inv(file, s) && s.snd.pc == Sending([])
    ensures Inv(file, DoSend(s, []))
  {
    var s' := DoSend(s, []);
    forall i: nat | i < |s'.up| ensures UpOk(file, s', i) {
      if i < |s.up| { assert UpOk(file, s, i) && s'.up[..i] == s.up[..i]; } else { assert s'.up[..i] == s.up; }
    }
    assert EndInFlight(s');
    if Covered(file, s, []) {
      forall i: nat | i < ChunkCount(file, s.snd.base) ensures Accounted(file, s', [], i) {
        assert Accounted(file, s, [], i);
      }
    }
  }

  lemma ResetAckKeeps(file: File, s: State)
    requires Inv(file, s) && s.snd.pc.ResetAck?
    ensures Inv(file, DoAct(file, s))
  {
    var s' := DoAct(file, s);
    forall i: nat | i < |s'.up| ensures UpOk(file, s', i) { assert UpOk(file, s, i); }
    forall i: nat | i < |s'.down| ensures DownOk(s', i) { assert DownOk(s, i); }
    if Covered(file, s, []) {
      forall i: nat | i < ChunkCount(file, s.snd.base) ensures Accounted(file, s', [], i) {
        assert Accounted(file, s, [], i);
      }
    }
  }

  lemma WaitAckKeeps(file: File, s: State)
    requires Inv(file, s) && s.snd.pc.WaitAck? && s.snd.ackReceived
    ensures Inv(file, DoWait(s))
  {
    var s' := DoWait(s);
    if s.snd.missing == [] {
      assert ROUND * (s.snd.currentRound + 1) == s.snd.base + ROUND;
    } else {
      assert Covered(file, s', s.snd.missing);
    }
  }

  lemma ActKeeps(file: File, s: State)
    requires Inv(file, s)
    ensures Inv(file, DoAct(file, s))
  {
    match s.snd.pc
    case Idle =>
    case LoopTop => if s.snd.bytesSent < |file| { FillKeeps(file, s); } else { SendEndKeeps(file, s); }
    case Sending(todo) => if todo == [] { SendRoundEndKeeps(file, s); } else { SendChunkKeeps(file, s); }
    case ResetAck => ResetAckKeeps(file, s);
    case WaitAck => if s.snd.ackReceived { WaitAckKeeps(file, s); }
  }

  // ---- Packets at the server ----

  /** The traffic behind the first packet stays in order. */
  lemma RestOk(file: File, s: State, s': State, i: nat)
    requires s.up != [] && s'.up == s.up[1..] && i < |s'.up| && UpOk(file, s, i + 1)
    requires s'.disk == s.disk && s'.snd == s.snd && s'.recv.Some? == s.recv.Some?
    requires s.recv.Some? ==> s'.recv.value.currentRound == s.recv.value.currentRound
    ensures UpOk(file, s', i)
  {
    assert s'.up[i] == s.up[i + 1];
    forall j | 0 <= j < i && AllChunks(s.up[..i + 1]) ensures s'.up[..i][j].Chunk? {
      assert s'.up[..i][j] == s.up[..i + 1][j + 1];
    }
  }

  lemma ReceiveStartKeeps(file: File, s: State, corrupt: bool)
    requires Inv(file, s) && s.up != [] && s.up[0].Start?
    ensures Inv(file, DoReceive(s, corrupt))
  {
    var s' := DoReceive(s, corrupt);
    assert UpOk(file, s, 0);
    assert s'.up == [];
    forall i: nat | i < |s'.down| ensures DownOk(s', i) {
      if i < |s.down| { assert DownOk(s, i) && s'.down[i] == s.down[i]; }
    }
  }

  lemma DropKeeps(file: File, s: State)
    requires Inv(file, s) && s.up != [] && s.up[0].Chunk?
    ensures Inv(file, DoReceive(s, true))
  {
    var s' := DoReceive(s, true);
    assert UpOk(file, s, 0);
    forall i: nat | i < |s'.up| ensures UpOk(file, s', i) { assert UpOk(file, s, i + 1); RestOk(file, s, s', i); }
    forall i: nat | i < |s'.down| ensures DownOk(s', i) { assert DownOk(s, i); }
  }

  /** What storing a chunk of the current round does to the round buffer. */
  lemma StoreChunkOk(file: File, onDisk: nat, t: Transfer, m: Up)
    requires Boundary(file, onDisk) && onDisk < |file| && TransferOk(file, onDisk, t)
    requires m.Chunk? && IsChunkMsg(file, onDisk, m)
    ensures var t' := StoreChunk(t, m.offset, m.data);
      && TransferOk(file, onDisk, t') && t'.currentRound == t.currentRound
      && (forall i :: 0 <= i < PER_ROUND && t.roundBuffer[i] != [] ==> t'.roundBuffer[i] != [])
      && (forall i: nat :: i < ChunkCount(file, onDisk) && m == ChunkMsg(file, onDisk, i) ==> t'.roundBuffer[i] != [])
  {
    var k: nat :| k < ChunkCount(file, onDisk) && m == ChunkMsg(file, onDisk, k);
    SlotIsIndex(onDisk, k);
    assert m.offset / CHUNK % PER_ROUND == k && m.data == Piece(file, onDisk, k);
    assert forall i: nat :: i < ChunkCount(file, onDisk) && m == ChunkMsg(file, onDisk, i) ==> i == k;
  }

  lemma ReceiveChunkCovers(file: File, s: State, todo: seq<nat>)
    requires Inv(file, s) && s.up != [] && s.up[0].Chunk? && UpOk(file, s, 0)
    requires |s.disk| == s.snd.base && Covered(file, s, todo)
    ensures ReceiverOk(file, DoReceive(s, false)) && Covered(file, DoReceive(s, false), todo)
  {
    var s' := DoReceive(s, false);
    StoreChunkOk(file, |s.disk|, s.recv.value, s.up[0]);
    assert s.up == [s.up[0]] + s'.up;
    forall i: nat | i < ChunkCount(file, s.snd.base) ensures Accounted(file, s', todo, i) {
      assert Accounted(file, s, todo, i);
    }
  }

  lemma ReceiveChunkChannels(file: File, s: State)
    requires Inv(file, s) && s.up != [] && s.up[0].Chunk? && s.recv.Some?
    ensures var s' := DoReceive(s, false);
      && (forall i: nat :: i < |s'.up| ==> UpOk(file, s', i))
      && (forall i: nat :: i < |s'.down| ==> DownOk(s', i))
  {
    var s' := DoReceive(s, false);
    forall i: nat | i < |s'.up| ensures UpOk(file, s', i) { assert UpOk(file, s, i + 1); RestOk(file, s, s', i); }
    forall i: nat | i < |s'.down| ensures DownOk(s', i) { assert DownOk(s, i); }
  }

  lemma ReceiveChunkSender(file: File, s: State)
    requires Inv(file, s) && s.up != [] && s.up[0].Chunk? && UpOk(file, s, 0)
    requires ReceiverOk(file, DoReceive(s, false))
    ensures SenderOk(file, DoReceive(s, false)) && LedgerOk(file, DoReceive(s, false))
  {
    match s.snd.pc
    case Sending(todo) => if Covered(file, s, todo) { ReceiveChunkCovers(file, s, todo); }
    case ResetAck => if Covered(file, s, []) { ReceiveChunkCovers(file, s, []); }
    case WaitAck => if Covered(file, s, []) { ReceiveChunkCovers(file, s, []); }
    case _ =>
  }

  lemma ReceiveChunkKeeps(file: File, s: State)
    requires Inv(file, s) && s.up != [] && s.up[0].Chunk?
    ensures Inv(file, DoReceive(s, false))
  {
    assert UpOk(file, s, 0);
    StoreChunkOk(file, |s.disk|, s.recv.value, s.up[0]);
    ReceiveChunkChannels(file, s);
    ReceiveChunkSender(file, s);
  }

  // ---- The end of a round ----

  lemma ReceiveLastChannels(file: File, s: State, s': State, extra: seq<Down>)
    requires Inv(file, s) && s.up != [] && s'.up == s.up[1..] && s'.snd == s.snd && s'.down == s.down + extra
    requires s.up[0].RoundEnd? || s.up[0].End?
    requires forall m :: m in extra ==> m.Ack? || m == Status(true)
    ensures forall i: nat :: i < |s'.up| ==> UpOk(file, s', i)
    ensures forall i: nat :: i < |s'.down| ==> DownOk(s', i)
  {
    assert UpOk(file, s, 0);
    if |s.up| == 2 { assert UpOk(file, s, 1) && s'.up[0] == s.up[1]; }
    forall i: nat | i < |s'.down| ensures DownOk(s', i) {
      if i < |s.down| { assert DownOk(s, i) && s'.down[i] == s.down[i]; } else { assert s'.down[i] in extra; }
    }
  }

  lemma RoundEndIsLast(file: File, s: State)
    requires Inv(file, s) && s.up != [] && s.up[0].RoundEnd? && !s.snd.pc.Idle?
    ensures |s.up| == 1
  {
    assert UpOk(file, s, 0) && UpOk(file, s, |s.up| - 1);
  }

  /** A reported gap has been paid for: all chunks sent before ROUND_END have arrived. */
  lemma GapWasPaid(file: File, s: State)
    requires Inv(file, s) && s.up != [] && s.up[0].RoundEnd? && UpOk(file, s, 0) && !s.snd.pc.Idle?
    requires Missing(s.recv.value.roundBuffer, s.up[0].count) != []
    ensures Slack(s) >= 1
  {
    var i := Missing(s.recv.value.roundBuffer, s.up[0].count)[0];
    assert i in Missing(s.recv.value.roundBuffer, s.up[0].count);
    RoundEndIsLast(file, s);
    assert !Accounted(file, s, [], i);
  }

  lemma ReceiveGapKeeps(file: File, s: State, corrupt: bool)
    requires Inv(file, s) && s.up != [] && s.up[0].RoundEnd? && UpOk(file, s, 0)
    requires Missing(s.recv.value.roundBuffer, s.up[0].count) != []
    ensures Inv(file, DoReceive(s, corrupt))
  {
    var s', t, n := DoReceive(s, corrupt), s.recv.value, s.up[0].count;
    var m := Missing(t.roundBuffer, n);
    ReceiveLastChannels(file, s, s', SendAck(s.up[0].round, m));
    ReceiveGapReports(file, s, s', m);
    if !s.snd.pc.Idle? { ReceiveGapSender(file, s, s', m); }
  }

  lemma ReceiveGapReports(file: File, s: State, s': State, m: seq<nat>)
    requires ReceiverOk(file, s) && ReportsOk(file, s) && s.recv.Some? && |s.disk| < |file|
    requires s'.disk == s.disk && s'.recv == s.recv && s'.reported == s.reported + [m]
    requires m == Missing(s.recv.value.roundBuffer, ChunkCount(file, |s.disk|))
    ensures ReportsOk(file, s')
  {
    if s.reported != [] {
      assert s'.reported[|s.reported| - 1] == s.reported[|s.reported| - 1];
      assert Subset(m, s.reported[|s.reported| - 1]);
    }
    forall k | 0 < k < |s'.reported| ensures Subset(s'.reported[k], s'.reported[k - 1]) {
      if k < |s.reported| { assert Subset(s.reported[k], s.reported[k - 1]); }
    }
  }

  lemma ReceiveGapSender(file: File, s: State, s': State, m: seq<nat>)
    requires Inv(file, s) && s.up != [] && s.up[0].RoundEnd? && UpOk(file, s, 0) && !s.snd.pc.Idle?
    requires m == Missing(s.recv.value.roundBuffer, s.up[0].count) != []
    requires s'.up == s.up[1..] && s'.down == s.down + SendAck(s.up[0].round, m)
    requires s'.disk == s.disk && s'.recv == s.recv && s'.snd == s.snd && Slack(s') == Slack(s)
    ensures SenderOk(file, s') && LedgerOk(file, s')
  {
    GapWasPaid(file, s);
    RoundEndIsLast(file, s);
    assert s.down == [] && |s.disk| == s.snd.base;
    assert ROUND * s.snd.currentRound == ROUND * s.up[0].round;
    assert AckOk(file, s', m);
    assert s'.up == [] && (s'.down == [] || s'.down == [Ack(s.snd.currentRound, m)]);
  }

  lemma WrittenDisk(file: File, disk: seq<byte>, buffer: seq<seq<byte>>)
    requires disk <= file && Boundary(file, |disk|) && |disk| < |file| && Slots(file, |disk|, buffer)
    requires Missing(buffer, ChunkCount(file, |disk|)) == []
    ensures var disk' := disk + Flatten(buffer);
      |disk'| == |disk| + RoundLength(file, |disk|) && disk' <= file && Boundary(file, |disk'|)
  {
    CompleteRound(file, |disk|, buffer);
    AppendRound(file, |disk|);
    assert disk == file[..|disk|];
  }

  lemma WrittenTransfer(file: File, base: nat, t: Transfer)
    requires base < |file| && TransferOk(file, base, t) && |Flatten(t.roundBuffer)| == RoundLength(file, base)
    ensures TransferOk(file, base + RoundLength(file, base), FinishRound(t))
  {
    assert ROUND * (t.currentRound + 1) == base + ROUND;
  }

  /** A complete round extends the prefix on disk to the next boundary. */
  lemma WrittenRound(file: File, disk: seq<byte>, t: Transfer)
    requires disk <= file && Boundary(file, |disk|) && |disk| < |file| && TransferOk(file, |disk|, t)
    requires Missing(t.roundBuffer, ChunkCount(file, |disk|)) == []
    ensures var disk' := disk + Flatten(t.roundBuffer);
      && |disk'| == |disk| + RoundLength(file, |disk|) && disk' <= file && Boundary(file, |disk'|)
      && TransferOk(file, |disk'|, FinishRound(t))
  {
    WrittenDisk(file, disk, t.roundBuffer);
    WrittenTransfer(file, |disk|, t);
  }

  lemma ReceiveCompleteSender(file: File, s: State, s': State)
    requires Inv(file, s) && s.up != [] && s.up[0].RoundEnd? && UpOk(file, s, 0) && !s.snd.pc.Idle?
    requires s'.up == s.up[1..] && s'.down == s.down + SendAck(s.up[0].round, [])
    requires |s'.disk| == |s.disk| + RoundLength(file, |s.disk|) && s'.recv.Some? && ReceiverOk(file, s')
    requires s'.snd == s.snd && Slack(s') == Slack(s)
    ensures SenderOk(file, s') && LedgerOk(file, s')
  {
    RoundEndIsLast(file, s);
    assert ROUND * s.snd.currentRound == ROUND * s.up[0].round;
    assert s'.up == [] && s'.down == [Ack(s.snd.currentRound, [])];
  }

  lemma ReceiveComplete(file: File, s: State, s': State)
    requires Inv(file, s) && s.up != [] && s.up[0].RoundEnd? && UpOk(file, s, 0)
    requires DiskOk(file, s') && ReceiverOk(file, s') && s'.recv.Some? && s'.reported == []
    requires |s'.disk| == |s.disk| + RoundLength(file, |s.disk|)
    requires s'.up == s.up[1..] && s'.down == s.down + SendAck(s.up[0].round, [])
    requires s'.snd == s.snd && Slack(s') == Slack(s)
    ensures Inv(file, s')
  {
    ReceiveLastChannels(file, s, s', SendAck(s.up[0].round, []));
    if !s.snd.pc.Idle? { ReceiveCompleteSender(file, s, s'); }
  }

  /** The step, spelt out. */
  lemma CompleteStep(s: State, corrupt: bool)
    requires s.up != [] && s.up[0].RoundEnd? && s.recv.Some? && s.recv.value.currentRound == s.up[0].round
    requires s.up[0].count <= |s.recv.value.roundBuffer| && Missing(s.recv.value.roundBuffer, s.up[0].count) == []
    ensures DoReceive(s, corrupt) ==
      s.(up := s.up[1..], disk := s.disk + Flatten(s.recv.value.roundBuffer), recv := Some(FinishRound(s.recv.value)),
         down := s.down + SendAck(s.up[0].round, []), reported := [])
  {
  }

  lemma ReceiveCompleteKeeps(file: File, s: State, corrupt: bool)
    requires Inv(file, s) && s.up != [] && s.up[0].RoundEnd? && UpOk(file, s, 0)
    requires Missing(s.recv.value.roundBuffer, s.up[0].count) == []
    ensures Inv(file, DoReceive(s, corrupt))
  {
    WrittenRound(file, s.disk, s.recv.value);
    CompleteStep(s, corrupt);
    ReceiveComplete(file, s, DoReceive(s, corrupt));
  }

  lemma ReceiveEndKeeps(file: File, s: State, corrupt: bool)
    requires Inv(file, s) && s.up != [] && s.up[0].End?
    ensures Inv(file, DoReceive(s, corrupt))
  {
    var s' := DoReceive(s, corrupt);
    assert UpOk(file, s, 0);
    ReceiveLastChannels(file, s, s', [Status(true)]);
  }

  lemma ReceiveKeeps(file: File, s: State, corrupt: bool)
    requires Inv(file, s)
    ensures Inv(file, DoReceive(s, corrupt))
  {
    if s.up != [] {
      assert UpOk(file, s, 0);
      match s.up[0]
      case Start(_) => ReceiveStartKeeps(file, s, corrupt);
      case Chunk(_, _) => if corrupt { DropKeeps(file, s); } else { ReceiveChunkKeeps(file, s); }
      case RoundEnd(_, count) =>
        if Missing(s.recv.value.roundBuffer, count) == [] { ReceiveCompleteKeeps(file, s, corrupt); }
        else { ReceiveGapKeeps(file, s, corrupt); }
      case End => ReceiveEndKeeps(file, s, corrupt);
    }
  }

  // ---- Packets at the client ----

  lemma DeliverResponseKeeps(file: File, s: State)
    requires Inv(file, s) && s.down != [] && s.down[0].Response?
    ensures Inv(file, DoDeliver(s))
  {
    assert DownOk(s, 0);
    assert s.up == [] && DoDeliver(s).down == [];
  }

  lemma DeliverChannels(file: File, s: State)
    requires Inv(file, s) && s.down != [] && !s.down[0].Response?
    ensures var s' := DoDeliver(s);
      && (forall i: nat :: i < |s'.up| ==> UpOk(file, s', i))
      && (forall i: nat :: i < |s'.down| ==> DownOk(s', i))
  {
    var s' := DoDeliver(s);
    forall i: nat | i < |s'.up| ensures UpOk(file, s', i) { assert UpOk(file, s, i); }
    forall i: nat | i < |s'.down| ensures DownOk(s', i) { assert DownOk(s, i + 1); }
  }

  lemma DeliverSender(file: File, s: State)
    requires Inv(file, s) && s.down != [] && !s.down[0].Response?
    ensures SenderOk(file, DoDeliver(s)) && LedgerOk(file, DoDeliver(s))
  {
    if s.snd.pc.Idle? { assert DoDeliver(s).snd.pc.Idle?; } else { assert DownOk(s, 0); }
  }

  lemma DeliverKeeps(file: File, s: State)
    requires Inv(file, s)
    ensures Inv(file, DoDeliver(s))
  {
    if s.down != [] {
      if s.down[0].Response? {
        DeliverResponseKeeps(file, s);
      } else {
        DeliverChannels(file, s);
        DeliverSender(file, s);
      }
    }
  }

  // ---- Runs ----

  lemma StepKeeps(file: File, s: State, e: Event)
    requires Inv(file, s)
    ensures Inv(file, Step(file, s, e))
  {
    match e
    case Begin => BeginKeeps(file, s);
    case Stop(loseUp, loseDown) => StopKeeps(file, s, loseUp, loseDown);
    case Act => ActKeeps(file, s);
    case Receive(corrupt) => ReceiveKeeps(file, s, corrupt);
    case Deliver => DeliverKeeps(file, s);
  }

  lemma {:induction false} RunKeeps(file: File, s: State, events: seq<Event>)
    requires Inv(file, s)
    ensures Inv(file, Run(file, s, events))
  {
    if events == [] {
    } else {
      var before := events[..|events| - 1];
      RunKeeps(file, s, before);
      StepKeeps(file, Run(file, s, before), events[|events| - 1]);
    }
  }

  /** The state after any run of an upload of file, from an empty disk. */
  function Reached(file: File, offsets: seq<nat>, events: seq<Event>): (s: State)
    requires |offsets| == PER_ROUND
  {
    Run(file, Init(offsets), events)
  }

  lemma ReachedInv(file: File, offsets: seq<nat>, events: seq<Event>)
    requires |offsets| == PER_ROUND
    ensures Inv(file, Reached(file, offsets, events))
  {
    InitInv(file, offsets);
    RunKeeps(file, Init(offsets), events);
  }

  /** In every reachable state the partial file is a prefix of the source, its length is a multiple
      of the round size or the full size, and the receiver's offset is that length. */
  lemma StoredIsPrefix(file: File, offsets: seq<nat>, events: seq<Event>)
    requires |offsets| == PER_ROUND
    ensures var s := Reached(file, offsets, events);
      && s.disk <= file && (|s.disk| % (CHUNK * PER_ROUND) == 0 || s.disk == file)
      && (s.recv.Some? ==> s.recv.value.receivedOffset == |s.disk|)
  {
    ReachedInv(file, offsets, events);
  }

  /** When FILE_END reaches the server, its verdict is success exactly when the stored length is
      the declared size; with this sender that is always so, and the stored file is the source. */
  lemma FileEndMeansStored(file: File, offsets: seq<nat>, events: seq<Event>, corrupt: bool)
    requires |offsets| == PER_ROUND
    requires var s := Reached(file, offsets, events); s.up != [] && s.up[0].End?
    ensures var s := Reached(file, offsets, events);
      && s.recv.Some? && s.recv.value.totalSize == |file| && s.disk == file
      && DoReceive(s, corrupt).down == s.down + [Status(true)]
  {
    ReachedInv(file, offsets, events);
    assert UpOk(file, Reached(file, offsets, events), 0);
  }

  /** The same verdict for any state of the receiver that agrees with its disk. */
  lemma FileEndVerdict(file: File, s: State, corrupt: bool)
    requires DiskOk(file, s) && ReceiverOk(file, s) && s.recv.Some? && s.up != [] && s.up[0].End?
    ensures DoReceive(s, corrupt).down == s.down + [Status(|s.disk| == |file|)]
    ensures |s.disk| == |file| <==> s.disk == file
  {
  }

  /** Both sides agree on the round at every ROUND_END, so the mismatch branch and the read past
      the round buffer are unreachable. */
  lemma RoundsAgree(file: File, offsets: seq<nat>, events: seq<Event>)
    requires |offsets| == PER_ROUND
    requires var s := Reached(file, offsets, events); s.up != [] && s.up[0].RoundEnd?
    ensures var s := Reached(file, offsets, events);
      && s.recv.Some? && s.up[0].round == s.recv.value.currentRound
      && s.up[0].count <= |s.recv.value.roundBuffer|
  {
    ReachedInv(file, offsets, events);
    assert UpOk(file, Reached(file, offsets, events), 0);
  }

  /** A chunk that reaches the server belongs to the round being received, and its slot is the index
      under which the sender cut it. */
  lemma SlotsAgree(file: File, offsets: seq<nat>, events: seq<Event>)
    requires |offsets| == PER_ROUND
    requires var s := Reached(file, offsets, events); s.up != [] && s.up[0].Chunk?
    ensures var s := Reached(file, offsets, events);
      && |s.disk| < |file|
      && var i := s.up[0].offset / CHUNK % PER_ROUND;
         i < ChunkCount(file, |s.disk|) && s.up[0] == ChunkMsg(file, |s.disk|, i)
  {
    ReachedInv(file, offsets, events);
    var s := Reached(file, offsets, events);
    assert UpOk(file, s, 0);
    ChunkSlot(file, |s.disk|, s.up[0]);
  }

  lemma ChunkSlot(file: File, base: nat, m: Up)
    requires base < |file| && base % ROUND == 0 && m.Chunk? && IsChunkMsg(file, base, m)
    ensures var i := m.offset / CHUNK % PER_ROUND; i < ChunkCount(file, base) && m == ChunkMsg(file, base, i)
  {
    var k: nat :| k < ChunkCount(file, base) && m == ChunkMsg(file, base, k);
    SlotIsIndex(base, k);
    assert m.offset == base + CHUNK * k;
  }

  /** In every run the ROUND_END packets put on the channel are bounded by the rounds begun and the
      chunks dropped. */
  lemma RoundEndsBounded(file: File, offsets: seq<nat>, events: seq<Event>)
    requires |offsets| == PER_ROUND
    ensures var t := TallyOf(file, Init(offsets), events); t.ends <= t.rounds + t.drops
  {
    ReachedInv(file, offsets, events);
    LedgerIsTally(file, Init(offsets), events);
  }

  lemma {:induction false} SubsetChain(lists: seq<seq<nat>>, j: nat, k: nat)
    requires j <= k < |lists| && forall i :: 0 < i < |lists| ==> Subset(lists[i], lists[i - 1])
    ensures Subset(lists[k], lists[j])
    decreases k
  {
    if j == k {
    } else {
      SubsetChain(lists, j, k - 1);
      assert Subset(lists[k], lists[k - 1]);
    }
  }

  /** Within a round each missing list is contained in every earlier one. */
  lemma MissingShrinks(file: File, offsets: seq<nat>, events: seq<Event>, j: nat, k: nat)
    requires |offsets| == PER_ROUND && j <= k < |Reports(file, Init(offsets), events)|
    ensures var lists := Reports(file, Init(offsets), events); Subset(lists[k], lists[j])
  {
    ReachedInv(file, offsets, events);
    ReportedIsReports(file, offsets, events);
    SubsetChain(Reached(file, offsets, events).reported, j, k);
  }

  /** The worker sends FILE_END only when the whole source is stored. */
  lemma WorkerDoneMeansStored(file: File, offsets: seq<nat>, events: seq<Event>)
    requires |offsets| == PER_ROUND
    requires var s := Reached(file, offsets, events); s.snd.pc.LoopTop? && s.snd.bytesSent >= |file|
    ensures Reached(file, offsets, events).disk == file
  {
    ReachedInv(file, offsets, events);
  }

  /** A file over the limit is never stored, not even in part. */
  lemma {:induction false} TooBigNeverStored(file: File, offsets: seq<nat>, events: seq<Event>)
    requires |offsets| == PER_ROUND && |file| > MAX_FILE
    ensures Reached(file, offsets, events).disk == [] && Reached(file, offsets, events).recv.None?
  {
    if events == [] {
    } else {
      var before := events[..|events| - 1];
      TooBigNeverStored(file, offsets, before);
      ReachedInv(file, offsets, before);
      ReachedInv(file, offsets, events);
    }
  }

  // ---- What each packet does ----

  /** FILE_START within the limit opens a fresh transfer at the length of the partial file, whatever was open
      before, and is answered with that length; above the limit it changes nothing. */
  lemma FileStartOpens(s: State, corrupt: bool)
    requires s.up != [] && s.up[0].Start?
    ensures var s', total := DoReceive(s, corrupt), s.up[0].total;
      if total > 5 * 1024 * 1024 then s' == s.(up := s.up[1..])
      else
        && s'.down == s.down + [Response(|s.disk|)] && s'.disk == s.disk && s'.up == s.up[1..] && s'.snd == s.snd
        && s'.recv.Some? && s'.recv.value.totalSize == total && s'.recv.value.receivedOffset == |s.disk|
        && s'.recv.value.currentRound == |s.disk| / (3840 * 1024) && |s'.recv.value.roundBuffer| == 1024
        && forall i :: 0 <= i < 1024 ==> s'.recv.value.roundBuffer[i] == []
  {
  }

  /** ROUND_END for the receiver's round: with no slot empty the round goes to disk and the answer is an empty
      list; otherwise nothing is stored and the answer names the empty slots, if it fits in a packet. */
  lemma RoundEndAnswers(s: State, corrupt: bool)
    requires s.up != [] && s.up[0].RoundEnd? && s.recv.Some? && s.up[0].round == s.recv.value.currentRound
    requires s.up[0].count <= |s.recv.value.roundBuffer|
    ensures var s', t, m := DoReceive(s, corrupt), s.recv.value, Missing(s.recv.value.roundBuffer, s.up[0].count);
      && s'.snd == s.snd && s'.up == s.up[1..]
      && s'.down == s.down + (if |m| <= 1014 then [Ack(t.currentRound, m)] else [])
      && (m != [] ==> s'.recv == s.recv && s'.disk == s.disk)
      && (m == [] ==>
            && s'.disk == s.disk + Flatten(t.roundBuffer) && s'.recv.Some? && s'.recv.value.totalSize == t.totalSize
            && s'.recv.value.receivedOffset == t.receivedOffset + |Flatten(t.roundBuffer)|
            && s'.recv.value.currentRound == t.currentRound + 1 && |s'.recv.value.roundBuffer| == |t.roundBuffer|
            && forall i :: 0 <= i < |t.roundBuffer| ==> s'.recv.value.roundBuffer[i] == [])
  {
    if Missing(s.recv.value.roundBuffer, s.up[0].count) == [] { CompleteStep(s, corrupt); }
  }

  /** A chunk fills its own slot if that is empty, and changes nothing else; a filled slot keeps its data. */
  lemma ChunkFillsItsSlot(t: Transfer, offset: nat, data: seq<byte>, i: nat)
    requires |t.roundBuffer| == PER_ROUND && i < PER_ROUND
    ensures var t' := StoreChunk(t, offset, data);
      && t' == t.(roundBuffer := t'.roundBuffer) && |t'.roundBuffer| == PER_ROUND
      && (t.roundBuffer[i] != [] ==> t'.roundBuffer[i] == t.roundBuffer[i])
      && (t.roundBuffer[i] == [] ==>
            t'.roundBuffer[i] == if offset % ROUND / CHUNK == i then data else [])
  {
    SlotByRemainder(offset);
  }

  /** The slot of an offset counts the whole chunks since the last round boundary. */
  lemma SlotByRemainder(offset: nat)
    ensures offset / CHUNK % PER_ROUND == offset % ROUND / CHUNK
  {
    var q, r := offset / ROUND, offset % ROUND;
    assert offset == CHUNK * (PER_ROUND * q) + r;
    assert offset / CHUNK == PER_ROUND * q + r / CHUNK;
  }

  /** ROUND_END for a round other than the receiver's is answered with the receiver's round and an empty
      list, and stores nothing. */
  lemma OtherRoundIsAnswered(s: State, corrupt: bool)
    requires s.up != [] && s.up[0].RoundEnd? && s.recv.Some? && s.up[0].round != s.recv.value.currentRound
    ensures DoReceive(s, corrupt) == s.(up := s.up[1..], down := s.down + [Ack(s.recv.value.currentRound, [])])
  {
  }

  /** After FILE_END the transfer is closed, and no packet but FILE_START is answered or stored. */
  lemma FileEndCloses(s: State, corrupt: bool)
    requires s.up != [] && s.up[0].End?
    ensures DoReceive(s, corrupt).recv == None
  {
  }

  /** The event is not the arrival of a FILE_START. */
  predicate NotAStart(s: State, e: Event)
  {
    e.Receive? ==> s.up == [] || !s.up[0].Start?
  }

  lemma ClosedStep(file: File, s: State, e: Event)
    requires Shaped(s) && s.recv == None && NotAStart(s, e)
    ensures var s' := Step(file, s, e); s'.recv == None && s'.disk == s.disk && |s'.down| <= |s.down|
  {
  }

  lemma {:induction false} ClosedAnswersNothing(file: File, s: State, events: seq<Event>)
    requires Shaped(s) && s.recv == None
    requires forall j: nat :: j < |events| ==> NotAStart(Run(file, s, events[..j]), events[j])
    ensures var s' := Run(file, s, events); s'.recv == None && s'.disk == s.disk && |s'.down| <= |s.down|
  {
    if events == [] {
    } else {
      var n := |events| - 1;
      var before := events[..n];
      forall j: nat | j < n ensures NotAStart(Run(file, s, before[..j]), before[j]) {
        assert before[..j] == events[..j] && NotAStart(Run(file, s, events[..j]), events[j]);
      }
      ClosedAnswersNothing(file, s, before);
      assert NotAStart(Run(file, s, events[..n]), events[n]);
      ClosedStep(file, Run(file, s, before), events[n]);
    }
  }

  /** A waiting worker that has its answer goes on to the next round if nothing is missing, and otherwise sends
      exactly the missing chunks once more, in the order of the list; without an answer it stays. */
  lemma WorkerTakesAnswer(file: File, s: State)
    requires Shaped(s) && s.snd.pc.WaitAck?
    ensures var s' := DoAct(file, s);
      && s' == s.(snd := s'.snd) && s'.snd == s.snd.(pc := s'.snd.pc, currentRound := s'.snd.currentRound)
      && (!s.snd.ackReceived ==> s' == s)
      && (s.snd.ackReceived && s.snd.missing == [] ==>
            s'.snd.pc == LoopTop && s'.snd.currentRound == s.snd.currentRound + 1)
      && (s.snd.ackReceived && s.snd.missing != [] ==>
            s'.snd.pc == Sending(s.snd.missing) && s'.snd.currentRound == s.snd.currentRound)
  {
  }

  /** An acknowledgement of another round leaves the sender as it was. */
  lemma OtherAckIsIgnored(s: State)
    requires s.down != [] && s.down[0].Ack? && s.down[0].round != s.snd.currentRound
    ensures DoDeliver(s) == s.(down := s.down[1..])
  {
  }

  // ---- The ledger counts what happened ----

  /** Rounds begun, chunks dropped and ROUND_END packets put on the channel, told from the states of a run. */
  datatype Tally = Tally(rounds: nat, drops: nat, ends: nat)

  /** What one step from a to b adds. */
  function StepTally(a: State, e: Event, b: State): (t: Tally)
  {
    Tally(if a.snd.pc.LoopTop? && b.snd.pc.Sending? then 1 else 0,
          if e == Receive(true) && a.up != [] && a.up[0].Chunk? then 1 else 0,
          if |b.up| > |a.up| && b.up[|b.up| - 1].RoundEnd? then 1 else 0)
  }

  function Plus(t: Tally, u: Tally): (r: Tally)
  {
    Tally(t.rounds + u.rounds, t.drops + u.drops, t.ends + u.ends)
  }

  function TallyOf(file: File, s: State, events: seq<Event>): (t: Tally)
    requires Shaped(s)
  {
    if events == [] then Tally(0, 0, 0) else
    var before, e := events[..|events| - 1], events[|events| - 1];
    Plus(TallyOf(file, s, before), StepTally(Run(file, s, before), e, Run(file, s, events)))
  }

  function LedgerOf(s: State): (t: Tally)
  {
    Tally(s.rounds, s.drops, s.ends)
  }

  lemma LedgerStep(file: File, a: State, e: Event)
    requires Shaped(a)
    ensures LedgerOf(Step(file, a, e)) == Plus(LedgerOf(a), StepTally(a, e, Step(file, a, e)))
  {
  }

  lemma {:induction false} LedgerIsTally(file: File, s: State, events: seq<Event>)
    requires Shaped(s)
    ensures LedgerOf(Run(file, s, events)) == Plus(LedgerOf(s), TallyOf(file, s, events))
  {
    if events == [] {
    } else {
      var before, e := events[..|events| - 1], events[|events| - 1];
      LedgerIsTally(file, s, before);
      LedgerStep(file, Run(file, s, before), e);
    }
  }

  /** The missing lists found for the receiver's round so far, told from the states of a run. */
  function Reports(file: File, s: State, events: seq<Event>): (lists: seq<seq<nat>>)
    requires Shaped(s)
  {
    if events == [] then [] else
    var before, e := events[..|events| - 1], events[|events| - 1];
    var a := Run(file, s, before);
    var b := Step(file, a, e);
    if b.recv.None? || a.recv.None? || b.disk != a.disk || (e.Receive? && a.up != [] && a.up[0].Start?) then []
    else if e.Receive? && a.up != [] && a.up[0].RoundEnd? && a.up[0].count <= |a.recv.value.roundBuffer|
    then Reports(file, s, before) + [Missing(a.recv.value.roundBuffer, a.up[0].count)]
    else Reports(file, s, before)
  }

  lemma ReportStep(file: File, a: State, e: Event)
    requires Inv(file, a) && (a.recv.None? ==> a.reported == [])
    ensures var b := Step(file, a, e);
      && (b.recv.None? ==> b.reported == [])
      && b.reported ==
         if b.recv.None? || a.recv.None? || b.disk != a.disk || (e.Receive? && a.up != [] && a.up[0].Start?) then []
         else if e.Receive? && a.up != [] && a.up[0].RoundEnd? && a.up[0].count <= |a.recv.value.roundBuffer|
         then a.reported + [Missing(a.recv.value.roundBuffer, a.up[0].count)]
         else a.reported
  {
    if e.Receive? && a.up != [] {
      assert UpOk(file, a, 0);
      if a.up[0].RoundEnd? && Missing(a.recv.value.roundBuffer, a.up[0].count) == [] { WrittenRound(file, a.disk, a.recv.value); }
    }
  }

  lemma {:induction false} ReportedIsReports(file: File, offsets: seq<nat>, events: seq<Event>)
    requires |offsets| == PER_ROUND
    ensures var s := Reached(file, offsets, events);
      s.reported == Reports(file, Init(offsets), events) && (s.recv.None? ==> s.reported == [])
  {
    if events == [] {
    } else {
      var before, e := events[..|events| - 1], events[|events| - 1];
      ReportedIsReports(file, offsets, before);
      ReachedInv(file, offsets, before);
      ReportStep(file, Reached(file, offsets, before), e);
    }
  }

  // ---- Acknowledgements that never count ----

  /** The worker waits, and nothing is on its way that could wake it. */
  predicate Stalled(s: State)
  {
    s.snd.pc.WaitAck? && !s.snd.ackReceived && s.up == [] && s.down == []
  }

  /** A stalled upload changes only when the worker stops. */
  lemma {:induction false} StalledUntilStopped(file: File, s: State, events: seq<Event>)
    requires Shaped(s) && Stalled(s) && forall e :: e in events ==> !e.Stop?
    ensures Run(file, s, events) == s
  {
    if events == [] {
    } else {
      var before := events[..|events| - 1];
      assert forall e :: e in before ==> e in events;
      StalledUntilStopped(file, s, before);
      assert events[|events| - 1] in events;
    }
  }

  /** With the acknowledgement on its way to a worker that has not reset ackReceived yet, the upload
      stalls if and only if the acknowledgement is delivered before the reset. */
  lemma EarlyAckStalls(file: File, s: State)
    requires Inv(file, s) && s.snd.pc.ResetAck? && AckInFlight(file, s)
    ensures Stalled(Run(file, s, [Deliver, Act]))
    ensures var s' := Run(file, s, [Act, Deliver]);
      s'.snd.pc.WaitAck? && s'.snd.ackReceived && s'.snd.missing == s.down[0].missing
  {
    RunTwo(file, s, Deliver, Act);
    RunTwo(file, s, Act, Deliver);
  }

  lemma RunTwo(file: File, s: State, a: Event, b: Event)
    requires Shaped(s)
    ensures Run(file, s, [a, b]) == Step(file, Step(file, s, a), b)
  {
    assert [a, b][..1] == [a] && [a][..0] == [];
    assert Run(file, s, [a]) == Step(file, Run(file, s, []), a);
  }

  /** A ROUND_END of the running worker is answered exactly when at most 1014 chunks are missing;
      otherwise the upload stalls once ackReceived is reset. */
  lemma LongGapStalls(file: File, s: State, corrupt: bool)
    requires Inv(file, s) && s.snd.pc.WaitAck? && s.up != [] && s.up[0].RoundEnd? && UpOk(file, s, 0)
    ensures Stalled(DoReceive(s, corrupt)) <==>
      |Missing(s.recv.value.roundBuffer, s.up[0].count)| > ACK_LIMIT
  {
    RoundEndIsLast(file, s);
  }
}
