/** After any history of dropped chunks, stops and lost packets, an upload can be resumed and then
    completes if nothing further goes wrong. */
module UploadProgress {
  import opened Common
  import opened UploadPieces
  import opened UploadProtocol

  /** No chunk is corrupted and the worker is not stopped. */
  predicate FaultFree(events: seq<Event>)
  {
    forall e :: e in events ==> e in {Begin, Act, Receive(false), Deliver}
  }

  lemma {:induction false} RunAppend(file: File, s: State, a: seq<Event>, b: seq<Event>)
    requires Shaped(s)
    ensures Run(file, s, a + b) == Run(file, Run(file, s, a), b)
  {
    if b == [] {
      assert a + b == a;
    } else {
      var n := |b| - 1;
      assert (a + b)[..|a| + n] == a + b[..n] && (a + b)[|a| + n] == b[n];
      RunAppend(file, s, a, b[..n]);
    }
  }

  lemma RunCons(file: File, s: State, e: Event, rest: seq<Event>)
    requires Shaped(s)
    ensures Run(file, s, [e] + rest) == Run(file, Step(file, s, e), rest)
  {
    assert [e][..0] == [];
    assert Run(file, s, [e]) == Step(file, Run(file, s, []), e);
    RunAppend(file, s, [e], rest);
  }

  /** The worker sends all the chunks on its list. */
  lemma {:induction false} SendAll(file: File, s: State) returns (events: seq<Event>)
    requires Inv(file, s) && s.snd.pc.Sending? && Covered(file, s, s.snd.pc.todo)
    ensures FaultFree(events)
    ensures var s' := Run(file, s, events);
      && Inv(file, s') && s'.snd == s.snd.(pc := Sending([])) && s'.disk == s.disk && s'.recv == s.recv
      && Covered(file, s', [])
    decreases |s.snd.pc.todo|
  {
    if s.snd.pc.todo == [] {
      events := [];
    } else {
      SendOne(file, s);
      var rest := SendAll(file, Step(file, s, Act));
      RunCons(file, s, Act, rest);
      events := [Act] + rest;
    }
  }

  lemma SendOne(file: File, s: State)
    requires Inv(file, s) && s.snd.pc.Sending? && s.snd.pc.todo != [] && Covered(file, s, s.snd.pc.todo)
    ensures var s', todo := Step(file, s, Act), s.snd.pc.todo[1..];
      && Inv(file, s') && s'.snd == s.snd.(pc := Sending(todo)) && s'.disk == s.disk && s'.recv == s.recv
      && Covered(file, s', todo)
  {
    SendChunkKeeps(file, s);
    SendChunkCovers(file, s);
  }

  /** ROUND_END has been sent and its answer not been used. */
  predicate Awaiting(pc: Pc)
  {
    pc.ResetAck? || pc.WaitAck?
  }

  /** The server takes in all the chunks ahead of ROUND_END. */
  lemma {:induction false} ReceiveAll(file: File, s: State) returns (events: seq<Event>)
    requires Inv(file, s) && Awaiting(s.snd.pc) && EndInFlight(s) && Covered(file, s, [])
    ensures FaultFree(events)
    ensures var s' := Run(file, s, events);
      && Inv(file, s') && s'.snd == s.snd && s'.disk == s.disk && |s'.up| == 1 && EndInFlight(s')
      && Covered(file, s', [])
    decreases |s.up|
  {
    if |s.up| == 1 {
      events := [];
    } else {
      ReceiveOne(file, s);
      var rest := ReceiveAll(file, Step(file, s, Receive(false)));
      RunCons(file, s, Receive(false), rest);
      events := [Receive(false)] + rest;
    }
  }

  lemma ReceiveOne(file: File, s: State)
    requires Inv(file, s) && Awaiting(s.snd.pc) && EndInFlight(s) && Covered(file, s, []) && |s.up| > 1
    ensures var s' := Step(file, s, Receive(false));
      && Inv(file, s') && s'.snd == s.snd && s'.disk == s.disk && |s'.up| == |s.up| - 1 && EndInFlight(s')
      && Covered(file, s', [])
  {
    assert UpOk(file, s, |s.up| - 1);
    assert s.up[..|s.up| - 1][0] == s.up[0];
    ReceiveChunkKeeps(file, s);
    assert UpOk(file, s, 0);
    ReceiveChunkCovers(file, s, []);
  }

  lemma NothingMissing(file: File, s: State)
    requires Inv(file, s) && Awaiting(s.snd.pc) && |s.up| == 1 && EndInFlight(s) && Covered(file, s, []) && UpOk(file, s, 0)
    ensures Missing(s.recv.value.roundBuffer, s.up[0].count) == []
  {
    forall i: nat | i < s.up[0].count ensures s.recv.value.roundBuffer[i] != [] { assert Accounted(file, s, [], i); }
    NoneMissing(s.recv.value.roundBuffer, s.up[0].count);
  }

  /** The facts about ROUND_END on its way that its answer depends on. */
  lemma EndInFlightFacts(file: File, s: State)
    requires Inv(file, s) && Awaiting(s.snd.pc) && |s.up| == 1 && EndInFlight(s) && UpOk(file, s, 0)
    ensures s.recv.Some? && s.up == [RoundEnd(s.snd.currentRound, ChunkCount(file, |s.disk|))] && s.down == []
    ensures s.recv.value.currentRound == s.snd.currentRound && |s.recv.value.roundBuffer| == PER_ROUND
  {
    assert ROUND * s.snd.currentRound == ROUND * s.up[0].round;
  }

  lemma GrowsByARound(file: File, disk: seq<byte>, t: Transfer)
    requires disk <= file && Boundary(file, |disk|) && |disk| < |file| && TransferOk(file, |disk|, t)
    requires Missing(t.roundBuffer, ChunkCount(file, |disk|)) == []
    ensures |disk + Flatten(t.roundBuffer)| > |disk|
  {
    WrittenRound(file, disk, t);
  }

  lemma CompleteAnswer(s: State, round: nat, count: nat)
    requires s.up == [RoundEnd(round, count)] && s.down == [] && s.recv.Some? && s.recv.value.currentRound == round
    requires count <= |s.recv.value.roundBuffer| && Missing(s.recv.value.roundBuffer, count) == []
    ensures var s' := DoReceive(s, false);
      && s'.snd == s.snd && s'.disk == s.disk + Flatten(s.recv.value.roundBuffer)
      && s'.up == [] && s'.down == [Ack(round, [])]
  {
    CompleteStep(s, false);
  }

  /** With every chunk in its slot, ROUND_END is answered by an empty list. */
  lemma AnswerRound(file: File, s: State)
    requires Inv(file, s) && Awaiting(s.snd.pc) && |s.up| == 1 && EndInFlight(s) && Covered(file, s, []) && UpOk(file, s, 0)
    ensures var s' := DoReceive(s, false);
      && s'.snd == s.snd && |s'.disk| > |s.disk|
      && s'.up == [] && s'.down == [Ack(s.snd.currentRound, [])]
  {
    EndInFlightFacts(file, s);
    NothingMissing(file, s);
    CompleteAnswer(s, s.snd.currentRound, s.up[0].count);
    GrowsByARound(file, s.disk, s.recv.value);
  }

  /** The worker takes the empty list and goes on. */
  lemma AcceptAnswer(file: File, s: State)
    requires Inv(file, s) && s.snd.pc.WaitAck? && s.up == [] && s.down == [Ack(s.snd.currentRound, [])]
    ensures var s' := Step(file, Step(file, s, Deliver), Act);
      Inv(file, s') && s'.snd.pc.LoopTop? && s'.disk == s.disk
  {
    StepKeeps(file, s, Deliver);
    var s1 := Step(file, s, Deliver);
    assert s1.snd == s.snd.(missing := [], ackReceived := true);
    StepKeeps(file, s1, Act);
  }

  /** ROUND_END is sent and ackReceived reset. */
  lemma Launch(file: File, s: State) returns (s': State)
    requires Inv(file, s) && s.snd.pc == Sending([]) && Covered(file, s, [])
    ensures s' == Step(file, Step(file, s, Act), Act)
    ensures Inv(file, s') && s'.snd.pc.WaitAck? && EndInFlight(s') && Covered(file, s', []) && s'.disk == s.disk
    ensures s'.recv == s.recv && s'.snd.base == s.snd.base
  {
    var s1 := Step(file, s, Act);
    StepKeeps(file, s, Act);
    assert s1.snd.pc.ResetAck? && s1.recv == s.recv && s1.up == s.up + [RoundEnd(s.snd.currentRound, s.snd.chunks)];
    s' := Step(file, s1, Act);
    StepKeeps(file, s1, Act);
    assert s'.up == s1.up && s'.recv == s.recv;
    forall i: nat | i < ChunkCount(file, s.snd.base) ensures Accounted(file, s', [], i) {
      assert Accounted(file, s, [], i);
    }
  }

  lemma RunThree(file: File, s: State, a: Event, b: Event, c: Event)
    requires Shaped(s)
    ensures Run(file, s, [a, b, c]) == Step(file, Step(file, Step(file, s, a), b), c)
  {
    RunCons(file, Step(file, Step(file, s, a), b), c, []);
    RunCons(file, Step(file, s, a), b, [c]);
    RunCons(file, s, a, [b, c]);
    assert [a, b, c] == [a] + [b, c] && [b, c] == [b] + [c] && [c] == [c] + [];
  }

  lemma SettleRound(file: File, s: State)
    requires Inv(file, s) && s.snd.pc.WaitAck? && |s.up| == 1 && EndInFlight(s) && Covered(file, s, [])
    ensures var s' := Run(file, s, [Receive(false), Deliver, Act]);
      Inv(file, s') && s'.snd.pc.LoopTop? && |s'.disk| > |s.disk|
  {
    assert UpOk(file, s, 0);
    AnswerRound(file, s);
    StepKeeps(file, s, Receive(false));
    AcceptAnswer(file, Step(file, s, Receive(false)));
    RunThree(file, s, Receive(false), Deliver, Act);
  }

  /** From the first chunk on its way to the next round. */
  lemma CloseRound(file: File, s: State) returns (events: seq<Event>)
    requires Inv(file, s) && s.snd.pc == Sending([]) && Covered(file, s, [])
    ensures FaultFree(events)
    ensures var s' := Run(file, s, events); Inv(file, s') && s'.snd.pc.LoopTop? && |s'.disk| > |s.disk|
  {
    var s1 := Launch(file, s);
    var receives := ReceiveAll(file, s1);
    var s2 := Run(file, s1, receives);
    SettleRound(file, s2);
    var tail := [Receive(false), Deliver, Act];
    RunAppend(file, s1, receives, tail);
    RunTwo(file, s, Act, Act);
    RunAppend(file, s, [Act, Act], receives + tail);
    events := [Act, Act] + (receives + tail);
  }

  /** The round is cut and its chunks are sent. */
  lemma OpenRound(file: File, s: State) returns (events: seq<Event>)
    requires Inv(file, s) && s.snd.pc.LoopTop? && s.snd.bytesSent < |file|
    ensures FaultFree(events)
    ensures var s' := Run(file, s, events);
      && Inv(file, s') && s'.snd.pc == Sending([]) && Covered(file, s', []) && s'.disk == s.disk
      && s'.recv == s.recv
  {
    var s1 := Step(file, s, Act);
    FillKeeps(file, s);
    assert s1 == DoLoopTop(file, s);
    assert Covered(file, s1, s1.snd.pc.todo);
    var sends := SendAll(file, s1);
    RunCons(file, s, Act, sends);
    events := [Act] + sends;
  }

  lemma OneRound(file: File, s: State) returns (events: seq<Event>)
    requires Inv(file, s) && s.snd.pc.LoopTop? && s.snd.bytesSent < |file|
    ensures FaultFree(events)
    ensures var s' := Run(file, s, events); Inv(file, s') && s'.snd.pc.LoopTop? && |s'.disk| > |s.disk|
  {
    var opening := OpenRound(file, s);
    var closing := CloseRound(file, Run(file, s, opening));
    RunAppend(file, s, opening, closing);
    events := opening + closing;
  }

  lemma {:induction false} AllRounds(file: File, s: State) returns (events: seq<Event>)
    requires Inv(file, s) && s.snd.pc.LoopTop?
    ensures FaultFree(events)
    ensures var s' := Run(file, s, events); Inv(file, s') && s'.snd.pc.LoopTop? && s'.disk == file
    decreases |file| - |s.disk|
  {
    if s.snd.bytesSent < |file| {
      var first := OneRound(file, s);
      var rest := AllRounds(file, Run(file, s, first));
      RunAppend(file, s, first, rest);
      events := first + rest;
    } else {
      events := [];
    }
  }

  /** A fresh FILE_START on quiet channels brings the worker to the top of its loop. */
  lemma Restart(file: File, s: State) returns (s': State)
    requires Inv(file, s) && s.snd.pc.Idle? && s.up == [] && s.down == [] && |file| <= MAX_FILE
    ensures s' == Run(file, s, [Begin, Receive(false), Deliver])
    ensures Inv(file, s') && s'.snd.pc.LoopTop? && s'.disk == s.disk && s'.recv == Some(Opened(|file|, |s.disk|))
  {
    RunThree(file, s, Begin, Receive(false), Deliver);
    var s1 := Step(file, s, Begin);
    StepKeeps(file, s, Begin);
    assert s1.up == [Start(|file|)] && s1.snd == s.snd;
    var s2 := Step(file, s1, Receive(false));
    StepKeeps(file, s1, Receive(false));
    assert s2.up == [] && s2.down == [Response(|s.disk|)] && s2.snd == s.snd;
    s' := Step(file, s2, Deliver);
    StepKeeps(file, s2, Deliver);
  }

  /** Whatever happened before, for every file within the limit: after the worker has stopped there
      is a resumption without further faults that stores the whole file and is told so. */
  lemma ResumeCompletes(file: File, offsets: seq<nat>, before: seq<Event>) returns (after: seq<Event>)
    requires |offsets| == PER_ROUND && |file| <= MAX_FILE
    ensures FaultFree(after)
    ensures var s := Reached(file, offsets, before + [Stop(true, true)] + after);
      s.disk == file && s.down == [Status(true)]
  {
    ReachedInv(file, offsets, before);
    var s0 := Reached(file, offsets, before);
    var s := Step(file, s0, Stop(true, true));
    StepKeeps(file, s0, Stop(true, true));
    var s1 := Restart(file, s);
    var rounds := AllRounds(file, s1);
    var s2 := Run(file, s1, rounds);
    FinishUpload(file, s2);
    var begin, end := [Begin, Receive(false), Deliver], [Act, Receive(false)];
    after := begin + (rounds + end);
    RunAppend(file, s1, rounds, end);
    RunAppend(file, s, begin, rounds + end);
    RunCons(file, s0, Stop(true, true), after);
    RunAppend(file, Init(offsets), before, [Stop(true, true)] + after);
    assert before + [Stop(true, true)] + after == before + ([Stop(true, true)] + after);
  }

  lemma FinishUpload(file: File, s: State)
    requires Inv(file, s) && s.snd.pc.LoopTop? && s.disk == file
    ensures var s' := Run(file, s, [Act, Receive(false)]); s'.disk == file && s'.down == [Status(true)]
  {
    RunTwo(file, s, Act, Receive(false));
    var s1 := Step(file, s, Act);
    StepKeeps(file, s, Act);
    assert s1.up == [End] && s1.recv == s.recv && s1.down == [];
  }

  // ---- The two ways to stall do occur ----

  /** Without any fault, the answer to ROUND_END can be on its way before ackReceived is reset. */
  lemma EarlyAckHappens(file: File, offsets: seq<nat>) returns (events: seq<Event>)
    requires |offsets| == PER_ROUND && 0 < |file| <= MAX_FILE
    ensures FaultFree(events)
    ensures var s := Reached(file, offsets, events); s.snd.pc.ResetAck? && AckInFlight(file, s)
    ensures Stalled(Reached(file, offsets, events + [Deliver, Act]))
  {
    var s0 := Init(offsets);
    InitInv(file, offsets);
    var s1 := Restart(file, s0);
    var opening := OpenRound(file, s1);
    var s2 := Run(file, s1, opening);
    var s3, answering := AnswerEarly(file, s2);
    var begin := [Begin, Receive(false), Deliver];
    events := begin + (opening + answering);
    RunAppend(file, s1, opening, answering);
    RunAppend(file, s0, begin, opening + answering);
    EarlyAckStalls(file, s3);
    RunAppend(file, s0, events, [Deliver, Act]);
  }

  /** From the end of the sends, the server answers ROUND_END before the worker acts again. */
  lemma AnswerEarly(file: File, s: State) returns (s': State, events: seq<Event>)
    requires Inv(file, s) && s.snd.pc == Sending([]) && Covered(file, s, [])
    ensures FaultFree(events) && s' == Run(file, s, events)
    ensures Inv(file, s') && s'.snd.pc.ResetAck? && AckInFlight(file, s')
  {
    var s1 := Launched(file, s);
    var receives := ReceiveAll(file, s1);
    s' := AnswerAtReset(file, Run(file, s1, receives));
    events := [Act] + (receives + [Receive(false)]);
    RunSnoc(file, s1, receives, Receive(false));
    RunCons(file, s, Act, receives + [Receive(false)]);
  }

  lemma AnswerAtReset(file: File, s: State) returns (s': State)
    requires Inv(file, s) && s.snd.pc.ResetAck? && |s.up| == 1 && EndInFlight(s) && Covered(file, s, [])
    ensures s' == Step(file, s, Receive(false))
    ensures Inv(file, s') && s'.snd.pc.ResetAck? && AckInFlight(file, s')
  {
    assert UpOk(file, s, 0);
    AnswerRound(file, s);
    StepKeeps(file, s, Receive(false));
    s' := Step(file, s, Receive(false));
  }

  lemma RunSnoc(file: File, s: State, events: seq<Event>, e: Event)
    requires Shaped(s)
    ensures Run(file, s, events + [e]) == Step(file, Run(file, s, events), e)
  {
    assert (events + [e])[..|events|] == events;
  }

  /** Chunks and their ROUND_END are on the channel. */
  lemma Launched(file: File, s: State) returns (s': State)
    requires Inv(file, s) && s.snd.pc == Sending([]) && Covered(file, s, [])
    ensures s' == Step(file, s, Act)
    ensures Inv(file, s') && s'.snd.pc.ResetAck? && EndInFlight(s') && Covered(file, s', [])
  {
    s' := Step(file, s, Act);
    StepKeeps(file, s, Act);
    assert s'.recv == s.recv && s'.up == s.up + [RoundEnd(s.snd.currentRound, s.snd.chunks)];
    forall i: nat | i < ChunkCount(file, s.snd.base) ensures Accounted(file, s', [], i) {
      assert Accounted(file, s, [], i);
    }
  }

  /** No stop, and nothing lost but chunks. */
  predicate DropsOnly(events: seq<Event>)
  {
    forall e :: e in events ==> !e.Stop?
  }

  lemma {:induction false} AllMissing(n: nat)
    requires n <= PER_ROUND
    ensures |Missing(EmptyRound(), n)| == n
  {
    if n == 0 {
    } else {
      AllMissing(n - 1);
    }
  }

  /** Every chunk ahead of ROUND_END is dropped. */
  lemma {:induction false} DropAll(file: File, s: State) returns (events: seq<Event>)
    requires Inv(file, s) && s.snd.pc.WaitAck? && EndInFlight(s)
    ensures DropsOnly(events)
    ensures var s' := Run(file, s, events);
      && Inv(file, s') && s'.snd == s.snd && s'.disk == s.disk && s'.recv == s.recv
      && |s'.up| == 1 && EndInFlight(s') && s'.drops == s.drops + |s.up| - 1
    decreases |s.up|
  {
    assert UpOk(file, s, |s.up| - 1);
    if |s.up| == 1 {
      events := [];
    } else {
      assert s.up[..|s.up| - 1][0] == s.up[0];
      DropKeeps(file, s);
      var s1 := Step(file, s, Receive(true));
      assert s1 == DoReceive(s, true);
      var rest := DropAll(file, s1);
      RunCons(file, s, Receive(true), rest);
      events := [Receive(true)] + rest;
    }
  }

  /** For every file whose first round has more than 1014 chunks there is a run in which enough of them
      are dropped that ROUND_END stays without an answer. */
  lemma LongGapHappens(file: File, offsets: seq<nat>) returns (events: seq<Event>)
    requires |offsets| == PER_ROUND && |file| <= MAX_FILE && file != [] && ChunkCount(file, 0) > ACK_LIMIT
    ensures DropsOnly(events) && Stalled(Reached(file, offsets, events))
  {
    var s0 := Init(offsets);
    InitInv(file, offsets);
    var s1 := Restart(file, s0);
    var opening := OpenRound(file, s1);
    var dropping := DropRound(file, Run(file, s1, opening));
    var begin := [Begin, Receive(false), Deliver];
    RunAppend(file, s1, opening, dropping);
    RunAppend(file, s0, begin, opening + dropping);
    events := begin + (opening + dropping);
  }

  lemma DropRound(file: File, s: State) returns (events: seq<Event>)
    requires Inv(file, s) && s.snd.pc == Sending([]) && Covered(file, s, [])
    requires s.disk == [] && s.recv == Some(Opened(|file|, 0)) && file != [] && ChunkCount(file, 0) > ACK_LIMIT
    ensures DropsOnly(events) && Stalled(Run(file, s, events))
  {
    var s1 := Launch(file, s);
    var drops := DropAll(file, s1);
    Unanswered(file, Run(file, s1, drops));
    RunSnoc(file, s1, drops, Receive(false));
    RunTwo(file, s, Act, Act);
    RunAppend(file, s, [Act, Act], drops + [Receive(false)]);
    events := [Act, Act] + (drops + [Receive(false)]);
  }

  lemma Unanswered(file: File, s: State)
    requires Inv(file, s) && s.snd.pc.WaitAck? && |s.up| == 1 && EndInFlight(s)
    requires s.disk == [] && s.recv == Some(Opened(|file|, 0)) && file != [] && ChunkCount(file, 0) > ACK_LIMIT
    ensures Stalled(Step(file, s, Receive(false)))
  {
    assert UpOk(file, s, 0);
    AllMissing(s.up[0].count);
    LongGapStalls(file, s, false);
  }
}
