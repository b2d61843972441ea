/** The two ends of an upload as the code that runs them, proved against the protocol's steps. */
module UploadHandlers {
  import opened Common
  import opened UploadPieces
  import opened UploadProtocol
  import Crc32c

  // ---- The server ----

  /** The server's state for one upload id, and its partial file. */
  class UploadReceiver {
    const table: Crc32c.Table
    const hardware: bool
    var active: bool
    var totalSize: nat
    var receivedOffset: nat
    var currentRound: nat
    var roundBuffer: seq<seq<byte>>
    var disk: seq<byte>

    /** The entry of the transfer map. */
    function View(): (t: Option<Transfer>)
      reads this
    {
      if active then Some(Transfer(totalSize, receivedOffset, currentRound, roundBuffer)) else None
    }

    constructor (tab: Crc32c.Table, hw: bool)
      ensures View() == None && disk == []
    {
      table, hardware := tab, hw;
      active, disk := false, [];
      totalSize, receivedOffset, currentRound, roundBuffer := 0, 0, 0, [];
    }

    /** handleFileStart on a file that can be opened */
    method HandleFileStart(total: nat) returns (sent: seq<Down>)
      modifies this
      ensures disk == old(disk)
      ensures forall s: State :: s.recv == old(View()) && s.disk == disk && s.up != [] && s.up[0] == Start(total) ==>
        Refines(DoReceive(s, false), s, View(), disk, sent)
    {
      if total > 1024 * 1024 * 5 { return []; }
      active, totalSize, roundBuffer := true, total, seq(PER_ROUND, i => []);
      var resumeOffset := |disk|;
      receivedOffset := resumeOffset;
      currentRound := resumeOffset / (CHUNK * PER_ROUND);
      return [Response(resumeOffset)];
    }

    /** handleFileChunk; the chunk is corrupt when its checksum differs from the one it carries. */
    method HandleFileChunk(offset: nat, data: seq<byte>, crcReceived: word)
      modifies this
      ensures disk == old(disk)
      ensures forall s: State :: s.recv == old(View()) && s.disk == disk && s.up != [] && s.up[0] == Chunk(offset, data) ==>
        Refines(DoReceive(s, Crc32c.Checksum(table, data, 0) != crcReceived), s, View(), disk, [])
    {
      if !active { return; }
      var crc := Crc32c.Compute(hardware, table, data, 0);
      if crc != crcReceived { return; }
      var chunkIndex := offset / CHUNK % PER_ROUND;
      if chunkIndex >= |roundBuffer| { return; }
      if roundBuffer[chunkIndex] != [] { return; }
      roundBuffer := roundBuffer[chunkIndex := data];
    }

    /** writeRoundToDisk: the filled slots are appended in order. */
    method WriteRoundToDisk()
      modifies this`disk, this`receivedOffset
      ensures disk == old(disk) + Flatten(roundBuffer)
      ensures receivedOffset == old(receivedOffset) + |Flatten(roundBuffer)|
    {
      for i := 0 to |roundBuffer|
        invariant disk == old(disk) + Flatten(roundBuffer[..i])
        invariant receivedOffset == old(receivedOffset) + |Flatten(roundBuffer[..i])|
      {
        FlattenNext(roundBuffer, i);
        if roundBuffer[i] != [] {
          disk := disk + roundBuffer[i];
          receivedOffset := receivedOffset + |roundBuffer[i]|;
        }
      }
      assert roundBuffer[..|roundBuffer|] == roundBuffer;
    }

    method CollectMissing(expected: nat) returns (missing: seq<nat>)
      requires expected <= |roundBuffer|
      ensures missing == Missing(roundBuffer, expected)
    {
      missing := [];
      for i := 0 to expected
        invariant missing == Missing(roundBuffer, i)
      {
        if roundBuffer[i] == [] { missing := missing + [i]; }
      }
    }

    /** handleRoundEnd; a count larger than the round buffer makes the source read past it. */
    method HandleRoundEnd(roundId: nat, expected: nat) returns (sent: seq<Down>)
      requires active && roundId == currentRound ==> expected <= |roundBuffer|
      modifies this
      ensures forall s: State :: s.recv == old(View()) && s.disk == old(disk) && s.up != [] && s.up[0] == RoundEnd(roundId, expected) ==>
        Refines(DoReceive(s, false), s, View(), disk, sent)
    {
      if !active { return []; }
      if roundId != currentRound { return SendAck(currentRound, []); }
      var missing := CollectMissing(expected);
      ghost var t, before := View().value, disk;
      if missing == [] {
        FinishRoundHere();
      }
      RoundEndRefines(t, before, roundId, expected);
      return SendAck(roundId, missing);
    }

    /** The part of handleRoundEnd for a complete round. */
    method FinishRoundHere()
      requires active
      modifies this
      ensures View() == Some(FinishRound(old(View()).value)) && disk == old(disk) + Flatten(old(roundBuffer))
    {
      WriteRoundToDisk();
      roundBuffer := seq(|roundBuffer|, i => []);
      currentRound := currentRound + 1;
    }

    /** handleFileEnd */
    method HandleFileEnd() returns (sent: seq<Down>)
      modifies this
      ensures disk == old(disk)
      ensures forall s: State :: s.recv == old(View()) && s.disk == disk && s.up != [] && s.up[0] == End ==>
        Refines(DoReceive(s, false), s, View(), disk, sent)
    {
      if !active { return []; }
      var success := receivedOffset == totalSize;
      active := false;
      return [Status(success)];
    }
  }

  /** s' is s after the server took the first packet, with this transfer, disk and answer. */
  ghost predicate Refines(s': State, s: State, recv: Option<Transfer>, disk: seq<byte>, sent: seq<Down>)
  {
    && s'.recv == recv && s'.disk == disk && s'.down == s.down + sent
    && s.up != [] && s'.up == s.up[1..] && s'.snd == s.snd
  }

  lemma RoundEndRefines(t: Transfer, disk: seq<byte>, round: nat, count: nat)
    requires t.currentRound == round && count <= |t.roundBuffer|
    ensures forall s: State :: s.recv == Some(t) && s.disk == disk && s.up != [] && s.up[0] == RoundEnd(round, count) ==>
      var m := Missing(t.roundBuffer, count);
      if m == [] then Refines(DoReceive(s, false), s, Some(FinishRound(t)), disk + Flatten(t.roundBuffer), SendAck(round, []))
      else Refines(DoReceive(s, false), s, Some(t), disk, SendAck(round, m))
  {
    forall s: State | s.recv == Some(t) && s.disk == disk && s.up != [] && s.up[0] == RoundEnd(round, count)
      ensures var m := Missing(t.roundBuffer, count);
        if m == [] then Refines(DoReceive(s, false), s, Some(FinishRound(t)), disk + Flatten(t.roundBuffer), SendAck(round, []))
        else Refines(DoReceive(s, false), s, Some(t), disk, SendAck(round, m))
    {
      if Missing(t.roundBuffer, count) == [] { CompleteStep(s, false); }
    }
  }

  lemma FlattenNext(parts: seq<seq<byte>>, i: nat)
    requires i < |parts|
    ensures Flatten(parts[..i + 1]) == Flatten(parts[..i]) + parts[i]
  {
    assert parts[..i + 1] == parts[..i] + [parts[i]];
    FlattenAppend(parts[..i], [parts[i]]);
    FlattenCons(parts[i], []);
    assert [parts[i]] + [] == [parts[i]];
  }

  // ---- The client ----

  class UploadState {
    const file: seq<byte>
    var bytesSent: nat
    var currentRound: nat
    var roundBuffer: seq<seq<byte>>
    var roundOffsets: seq<nat>
    var missingChunks: seq<nat>
    var ackReceived: bool

    /** The inner loop that cuts the next round, with full reads. */
    method FillRound() returns (chunksThisRound: nat)
      requires bytesSent < |file| && |roundOffsets| == PER_ROUND
      modifies this`bytesSent, this`roundBuffer, this`roundOffsets
      ensures chunksThisRound == ChunkCount(file, old(bytesSent))
      ensures bytesSent == old(bytesSent) + RoundLength(file, old(bytesSent))
      ensures roundBuffer == FilledBuffer(file, old(bytesSent))
      ensures roundOffsets == FilledOffsets(file, old(bytesSent), old(roundOffsets))
    {
      ghost var start := bytesSent;
      var roundBase := bytesSent;
      chunksThisRound := 0;
      roundBuffer := seq(PER_ROUND, i => []);
      while chunksThisRound < PER_ROUND && bytesSent < |file|
        invariant chunksThisRound <= ChunkCount(file, start)
        invariant roundBase == bytesSent == Reach(file, start, chunksThisRound)
        invariant |roundBuffer| == |roundOffsets| == PER_ROUND
        invariant forall i :: 0 <= i < PER_ROUND ==>
          roundBuffer[i] == if i < chunksThisRound then Piece(file, start, i) else []
        invariant forall i :: 0 <= i < PER_ROUND ==>
          roundOffsets[i] == if i < chunksThisRound then start + CHUNK * i else old(roundOffsets)[i]
        decreases PER_ROUND - chunksThisRound
      {
        ReachNext(file, start, chunksThisRound);
        var remaining := |file| - bytesSent;
        var chunkSize := if CHUNK < remaining then CHUNK else remaining;
        var chunk := file[bytesSent..bytesSent + chunkSize];
        var offset := roundBase;
        roundBase := roundBase + |chunk|;
        bytesSent := bytesSent + |chunk|;
        roundOffsets := roundOffsets[chunksThisRound := offset];
        roundBuffer := roundBuffer[chunksThisRound := chunk];
        chunksThisRound := chunksThisRound + 1;
      }
      ReachEnd(file, start, chunksThisRound);
    }

    /** The loop that sends the chunks of a round. */
    method SendRound(chunksThisRound: nat) returns (sent: seq<Up>)
      requires chunksThisRound <= |roundOffsets| == |roundBuffer|
      ensures sent == SentFor(roundOffsets, roundBuffer, chunksThisRound, Indices(chunksThisRound))
      ensures |sent| == chunksThisRound
      ensures forall i :: 0 <= i < chunksThisRound ==> sent[i] == Chunk(roundOffsets[i], roundBuffer[i])
    {
      sent := [];
      for i := 0 to chunksThisRound
        invariant sent == SentFor(roundOffsets, roundBuffer, chunksThisRound, Indices(i)) && |sent| == i
        invariant forall j :: 0 <= j < i ==> sent[j] == Chunk(roundOffsets[j], roundBuffer[j])
      {
        SentForAppend(roundOffsets, roundBuffer, chunksThisRound, Indices(i), i);
        sent := sent + [Chunk(roundOffsets[i], roundBuffer[i])];
      }
    }

    /** The loop that sends the missing chunks again. */
    method Resend(chunksThisRound: nat) returns (sent: seq<Up>)
      requires chunksThisRound <= |roundOffsets| == |roundBuffer|
      ensures sent == SentFor(roundOffsets, roundBuffer, chunksThisRound, missingChunks)
      ensures InListOrder(roundOffsets, roundBuffer, chunksThisRound, missingChunks, sent)
    {
      sent := [];
      for k := 0 to |missingChunks|
        invariant sent == SentFor(roundOffsets, roundBuffer, chunksThisRound, missingChunks[..k])
      {
        var idx := missingChunks[k];
        SentForAppend(roundOffsets, roundBuffer, chunksThisRound, missingChunks[..k], idx);
        assert missingChunks[..k + 1] == missingChunks[..k] + [idx];
        if idx >= chunksThisRound { continue; }
        sent := sent + [Chunk(roundOffsets[idx], roundBuffer[idx])];
      }
      assert missingChunks[..|missingChunks|] == missingChunks;
      SentInListOrder(roundOffsets, roundBuffer, chunksThisRound, missingChunks);
    }

    /** handleFileAck */
    method HandleFileAck(roundId: nat, missing: seq<nat>)
      modifies this`missingChunks, this`ackReceived
      ensures roundId != currentRound ==> missingChunks == old(missingChunks) && ackReceived == old(ackReceived)
      ensures roundId == currentRound ==> missingChunks == missing && ackReceived
    {
      if roundId != currentRound { return; }
      missingChunks := missing;
      ackReceived := true;
    }
  }

  /** Where the first n chunks of the round end. */
  function Reach(file: File, start: nat, n: nat): (e: nat)
    requires start < |file| && n <= ChunkCount(file, start)
  {
    if n == 0 then start else start + ChunkEnd(file, start, n - 1)
  }

  lemma ReachNext(file: File, start: nat, n: nat)
    requires start < |file| && n < PER_ROUND && n <= ChunkCount(file, start) && Reach(file, start, n) < |file|
    ensures n < ChunkCount(file, start)
    ensures Reach(file, start, n) == start + CHUNK * n
    ensures var size := if CHUNK < |file| - Reach(file, start, n) then CHUNK else |file| - Reach(file, start, n);
      && Reach(file, start, n + 1) == Reach(file, start, n) + size
      && file[Reach(file, start, n)..Reach(file, start, n) + size] == Piece(file, start, n)
  {
  }

  lemma ReachEnd(file: File, start: nat, n: nat)
    requires start < |file| && n <= ChunkCount(file, start) && (n == PER_ROUND || Reach(file, start, n) >= |file|)
    ensures n == ChunkCount(file, start) && Reach(file, start, n) == start + RoundLength(file, start)
  {
  }

  /** The chunk packets for a list of indices; indices past the round are skipped. */
  function SentFor(offsets: seq<nat>, buffer: seq<seq<byte>>, chunks: nat, todo: seq<nat>): (sent: seq<Up>)
    requires chunks <= |offsets| == |buffer|
  {
    if todo == [] then []
    else if todo[0] >= chunks then SentFor(offsets, buffer, chunks, todo[1..])
    else [Chunk(offsets[todo[0]], buffer[todo[0]])] + SentFor(offsets, buffer, chunks, todo[1..])
  }

  lemma {:induction false} SentForAppend(offsets: seq<nat>, buffer: seq<seq<byte>>, chunks: nat, todo: seq<nat>, i: nat)
    requires chunks <= |offsets| == |buffer|
    ensures SentFor(offsets, buffer, chunks, todo + [i]) ==
      SentFor(offsets, buffer, chunks, todo) + (if i < chunks then [Chunk(offsets[i], buffer[i])] else [])
  {
    if todo == [] {
      assert [i][1..] == [] && todo + [i] == [i];
    } else {
      assert (todo + [i])[1..] == todo[1..] + [i];
      SentForAppend(offsets, buffer, chunks, todo[1..], i);
    }
  }

  /** How many of the listed indices are in the round. */
  function InRound(chunks: nat, todo: seq<nat>): (n: nat)
    ensures n <= |todo|
    ensures (forall i :: 0 <= i < |todo| ==> todo[i] < chunks) ==> n == |todo|
  {
    if todo == [] then 0
    else InRound(chunks, todo[..|todo| - 1]) + (if todo[|todo| - 1] < chunks then 1 else 0)
  }

  /** Entry k of the list is skipped, or its packet stands behind those of the entries before it. */
  predicate PacketAt(offsets: seq<nat>, buffer: seq<seq<byte>>, chunks: nat, todo: seq<nat>, sent: seq<Up>, k: nat)
    requires chunks <= |offsets| == |buffer| && k < |todo|
  {
    var at := InRound(chunks, todo[..k]);
    todo[k] < chunks ==> at < |sent| && sent[at] == Chunk(offsets[todo[k]], buffer[todo[k]])
  }

  /** The packets are those of the listed indices that are in the round, one each, in the order of the list. */
  ghost predicate InListOrder(offsets: seq<nat>, buffer: seq<seq<byte>>, chunks: nat, todo: seq<nat>, sent: seq<Up>)
    requires chunks <= |offsets| == |buffer|
  {
    |sent| == InRound(chunks, todo) && forall k: nat :: k < |todo| ==> PacketAt(offsets, buffer, chunks, todo, sent, k)
  }

  lemma ListOrderSnoc(offsets: seq<nat>, buffer: seq<seq<byte>>, chunks: nat, todo: seq<nat>, sent: seq<Up>, i: nat)
    requires chunks <= |offsets| == |buffer| && InListOrder(offsets, buffer, chunks, todo, sent)
    ensures InListOrder(offsets, buffer, chunks, todo + [i], sent + (if i < chunks then [Chunk(offsets[i], buffer[i])] else []))
  {
    var todo', sent' := todo + [i], sent + (if i < chunks then [Chunk(offsets[i], buffer[i])] else []);
    assert todo'[..|todo|] == todo;
    forall k: nat | k < |todo'| ensures PacketAt(offsets, buffer, chunks, todo', sent', k) {
      if k < |todo| { assert todo'[..k] == todo[..k] && PacketAt(offsets, buffer, chunks, todo, sent, k); }
    }
  }

  lemma {:induction false} SentInListOrder(offsets: seq<nat>, buffer: seq<seq<byte>>, chunks: nat, todo: seq<nat>)
    requires chunks <= |offsets| == |buffer|
    ensures InListOrder(offsets, buffer, chunks, todo, SentFor(offsets, buffer, chunks, todo))
  {
    if todo == [] {
    } else {
      var before, i := todo[..|todo| - 1], todo[|todo| - 1];
      SentInListOrder(offsets, buffer, chunks, before);
      SentForAppend(offsets, buffer, chunks, before, i);
      ListOrderSnoc(offsets, buffer, chunks, before, SentFor(offsets, buffer, chunks, before), i);
      assert todo == before + [i];
    }
  }

  function Acts(n: nat): (events: seq<Event>)
  {
    seq(n, i => Act)
  }

  /** s after the worker sent for the first n indices of its list. */
  function SentFirst(s: State, n: nat): (s': State)
    requires Shaped(s) && s.snd.pc.Sending? && n <= |s.snd.pc.todo|
    ensures Shaped(s')
  {
    s.(up := s.up + SentFor(s.snd.roundOffsets, s.snd.roundBuffer, s.snd.chunks, s.snd.pc.todo[..n]),
       snd := s.snd.(pc := Sending(s.snd.pc.todo[n..])))
  }

  lemma SendsNext(file: File, s: State, n: nat)
    requires Shaped(s) && s.snd.pc.Sending? && n < |s.snd.pc.todo|
    ensures Step(file, SentFirst(s, n), Act) == SentFirst(s, n + 1)
  {
    var todo := s.snd.pc.todo;
    SentForAppend(s.snd.roundOffsets, s.snd.roundBuffer, s.snd.chunks, todo[..n], todo[n]);
    assert todo[..n + 1] == todo[..n] + [todo[n]];
    assert todo[n..][0] == todo[n] && todo[n..][1..] == todo[n + 1..];
  }

  lemma SentNone(s: State)
    requires Shaped(s) && s.snd.pc.Sending?
    ensures SentFirst(s, 0) == s
  {
    var todo := s.snd.pc.todo;
    assert todo[0..] == todo && todo[..0] == [];
    assert s.up + [] == s.up;
  }

  lemma ActsOneMore(file: File, s: State, n: nat)
    requires Shaped(s)
    ensures Run(file, s, Acts(n + 1)) == Step(file, Run(file, s, Acts(n)), Act)
  {
    assert Acts(n + 1)[..n] == Acts(n) && Acts(n + 1)[n] == Act;
  }

  /** The protocol's worker, sending one packet at a time, puts the packets of these loops on the channel. */
  lemma {:induction false} WorkerSends(file: File, s: State, n: nat)
    requires Shaped(s) && s.snd.pc.Sending? && n <= |s.snd.pc.todo|
    ensures Run(file, s, Acts(n)) == SentFirst(s, n)
    decreases n
  {
    if n == 0 {
      SentNone(s);
    } else {
      var m: nat := n - 1;
      WorkerSends(file, s, m);
      SendsNext(file, s, m);
      ActsOneMore(file, s, m);
      assert m + 1 == n;
    }
  }

  /** So they reach the channel in the order of the worker's list; for a new round that is 0, 1, 2 and so on. */
  lemma WorkerSendsInOrder(file: File, s: State)
    requires Shaped(s) && s.snd.pc.Sending?
    ensures var s', todo := Run(file, s, Acts(|s.snd.pc.todo|)), s.snd.pc.todo;
      && s.up <= s'.up && s'.snd.pc == Sending([])
      && InListOrder(s.snd.roundOffsets, s.snd.roundBuffer, s.snd.chunks, todo, s'.up[|s.up|..])
  {
    var todo := s.snd.pc.todo;
    WorkerSends(file, s, |todo|);
    assert todo[..|todo|] == todo;
    SentInListOrder(s.snd.roundOffsets, s.snd.roundBuffer, s.snd.chunks, todo);
  }

  /** A new round goes out chunk by chunk from index 0. */
  lemma NewRoundInOrder(offsets: seq<nat>, buffer: seq<seq<byte>>, chunks: nat, sent: seq<Up>, i: nat)
    requires chunks <= |offsets| == |buffer| && i < chunks && InListOrder(offsets, buffer, chunks, Indices(chunks), sent)
    ensures |sent| == chunks && sent[i] == Chunk(offsets[i], buffer[i])
  {
    assert PacketAt(offsets, buffer, chunks, Indices(chunks), sent, i);
    assert InRound(chunks, Indices(chunks)[..i]) == i;
  }
}
