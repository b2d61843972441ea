/** Every schedule of a running upload ends with the file stored, as long as no chunk is dropped, the
    worker is not stopped, and no acknowledgement is lost in one of the two known ways. */
module UploadTermination {
  import opened Common
  import opened UploadPieces
  import opened UploadProtocol

  /** ROUND_END is next, and more chunks are missing than fit in an acknowledgement. */
  predicate LongGap(s: State)
  {
    && s.up != [] && s.up[0].RoundEnd? && s.recv.Some? && s.up[0].count <= |s.recv.value.roundBuffer|
    && |Missing(s.recv.value.roundBuffer, s.up[0].count)| > ACK_LIMIT
  }

  /** A step without a fault that loses no acknowledgement. */
  predicate Smooth(s: State, e: Event)
  {
    || e == Act
    || (e == Receive(false) && !LongGap(s))
    || (e == Deliver && !s.snd.pc.ResetAck?)
  }

  /** A worker that waits has something to wait for. */
  predicate Answerable(s: State)
  {
    && (s.snd.pc.ResetAck? ==> s.up != [] || s.down != [])
    && (s.snd.pc.WaitAck? ==> s.snd.ackReceived || s.up != [] || s.down != [])
  }

  /** The worker is done and only FILE_END is on its way, with the whole file on disk. */
  predicate Finished(file: File, s: State)
  {
    s.snd.pc.Idle? && s.up == [End] && s.down == [] && s.disk == file
  }

  ghost predicate Running(file: File, s: State)
  {
    Inv(file, s) && !s.snd.pc.Idle? && Answerable(s)
  }

  // ---- The measure ----

  /** Bytes not yet cut into rounds. */
  function Uncut(file: File, s: State): int
  {
    |file| - s.snd.bytesSent
  }

  function Phase(snd: Sender): (n: nat)
  {
    match snd.pc
    case ResetAck => 4
    case WaitAck => if snd.ackReceived then 2 else 3
    case Sending(_) => 1
    case _ => 0
  }

  /** Packets still to be sent or handled within the phase. */
  function Pending(s: State): (n: nat)
  {
    (if s.snd.pc.Sending? then 3 * |s.snd.pc.todo| else 0) + 2 * |s.up| + |s.down|
  }

  /** Lexicographic: fewer bytes to cut; or less slack; or a later phase; or fewer packets. */
  predicate Less(file: File, a: State, b: State)
  {
    || Uncut(file, a) < Uncut(file, b)
    || (Uncut(file, a) == Uncut(file, b) && Slack(a) < Slack(b))
    || (Uncut(file, a) == Uncut(file, b) && Slack(a) == Slack(b) && Phase(a.snd) < Phase(b.snd))
    || (Uncut(file, a) == Uncut(file, b) && Slack(a) == Slack(b) && Phase(a.snd) == Phase(b.snd) && Pending(a) < Pending(b))
  }

  /** What a smooth step of a running upload leads to. */
  ghost predicate Advances(file: File, s: State, s': State)
  {
    s' == s || Finished(file, s') || (!s'.snd.pc.Idle? && Answerable(s') && Less(file, s', s))
  }

  lemma ActAdvances(file: File, s: State)
    requires Running(file, s)
    ensures Advances(file, s, DoAct(file, s))
  {
    match s.snd.pc
    case LoopTop => if s.snd.bytesSent >= |file| { assert DoAct(file, s).up == [End]; }
    case Sending(todo) =>
    case ResetAck =>
    case WaitAck =>
  }

  lemma ReceiveAdvances(file: File, s: State)
    requires Running(file, s) && !LongGap(s)
    ensures Advances(file, s, DoReceive(s, false))
  {
    if s.up != [] {
      assert UpOk(file, s, 0);
      var s' := DoReceive(s, false);
      assert |s'.up| == |s.up| - 1;
      if s.up[0].RoundEnd? { RoundEndIsLast(file, s); RoundEndAnswered(file, s); } else { ChunkNotLast(file, s); }
    }
  }

  lemma RoundEndAnswered(file: File, s: State)
    requires Running(file, s) && !LongGap(s) && |s.up| == 1 && s.up[0].RoundEnd? && UpOk(file, s, 0)
    ensures |DoReceive(s, false).down| == |s.down| + 1 && DoReceive(s, false).snd == s.snd
    ensures Slack(DoReceive(s, false)) == Slack(s)
  {
  }

  /** Ahead of a running worker's chunks there is nothing but chunks; behind them ROUND_END or more sends. */
  lemma ChunkNotLast(file: File, s: State)
    requires Running(file, s) && s.up != [] && !s.up[0].RoundEnd? && UpOk(file, s, 0)
    ensures s.up[0].Chunk? && Answerable(DoReceive(s, false))
    ensures DoReceive(s, false).snd == s.snd && DoReceive(s, false).down == s.down && Slack(DoReceive(s, false)) == Slack(s)
  {
    assert UpOk(file, s, |s.up| - 1);
  }

  lemma DeliverAdvances(file: File, s: State)
    requires Running(file, s) && !s.snd.pc.ResetAck?
    ensures Advances(file, s, DoDeliver(s))
  {
    if s.down != [] { assert DownOk(s, 0); }
  }

  lemma SmoothAdvances(file: File, s: State, e: Event)
    requires Running(file, s) && Smooth(s, e)
    ensures Inv(file, Step(file, s, e)) && Advances(file, s, Step(file, s, e))
  {
    StepKeeps(file, s, e);
    match e
    case Act => ActAdvances(file, s);
    case Receive(_) => ReceiveAdvances(file, s);
    case Deliver => DeliverAdvances(file, s);
  }

  /** A running upload always has a step to take that changes something and drops nothing. */
  lemma AlwaysEnabled(file: File, s: State)
    requires Running(file, s)
    ensures exists e :: e in {Act, Receive(false), Deliver} && Step(file, s, e) != s && (Smooth(s, e) || LongGap(s))
  {
    match s.snd.pc
    case LoopTop => assert DoAct(file, s).snd.pc != s.snd.pc; assert Step(file, s, Act) != s;
    case Sending(todo) => assert DoAct(file, s).snd.pc != s.snd.pc; assert Step(file, s, Act) != s;
    case ResetAck => assert DoAct(file, s).snd.pc != s.snd.pc; assert Step(file, s, Act) != s;
    case WaitAck =>
      if s.snd.ackReceived {
        assert DoAct(file, s).snd.pc != s.snd.pc; assert Step(file, s, Act) != s;
      } else if s.up != [] {
        assert |DoReceive(s, false).up| == |s.up| - 1 by { assert UpOk(file, s, 0); }
        assert Step(file, s, Receive(false)) != s;
      } else {
        assert DownOk(s, 0);
        assert |DoDeliver(s).down| == |s.down| - 1;
        assert Step(file, s, Deliver) != s;
      }
  }

  // ---- Schedules ----

  /** The state after the first n events of an endless schedule. */
  function After(file: File, s: State, schedule: nat -> Event, n: nat): (s': State)
    requires Shaped(s)
    ensures Shaped(s')
  {
    if n == 0 then s else Step(file, After(file, s, schedule, n - 1), schedule(n - 1))
  }

  /** Until the upload is finished, the schedule takes smooth steps that change something. */
  ghost predicate Diligent(file: File, s: State, schedule: nat -> Event)
    requires Shaped(s)
  {
    forall n: nat :: var t := After(file, s, schedule, n);
      Finished(file, t) || (Smooth(t, schedule(n)) && Step(file, t, schedule(n)) != t)
  }

  /** One step of a diligent schedule. */
  lemma DiligentStep(file: File, s: State, e: Event)
    requires Running(file, s) && Smooth(s, e) && Step(file, s, e) != s && !Finished(file, Step(file, s, e))
    ensures Running(file, Step(file, s, e)) && Less(file, Step(file, s, e), s)
  {
    SmoothAdvances(file, s, e);
  }

  lemma {:induction false} FinishesFrom(file: File, s: State, schedule: nat -> Event, i: nat) returns (n: nat)
    requires Shaped(s) && Diligent(file, s, schedule) && Running(file, After(file, s, schedule, i))
    ensures Finished(file, After(file, s, schedule, n))
    decreases Bound(file, After(file, s, schedule, i)), Slack(After(file, s, schedule, i)),
      Phase(After(file, s, schedule, i).snd), Pending(After(file, s, schedule, i))
  {
    var t := After(file, s, schedule, i);
    var t' := After(file, s, schedule, i + 1);
    assert Smooth(t, schedule(i)) && t' != t;
    if Finished(file, t') {
      n := i + 1;
    } else {
      DiligentStep(file, t, schedule(i));
      UncutBounded(file, t);
      UncutBounded(file, t');
      n := FinishesFrom(file, s, schedule, i + 1);
    }
  }

  /** Uncut as a natural number. */
  function Bound(file: File, s: State): (n: nat)
  {
    if Uncut(file, s) < 0 then 0 else Uncut(file, s)
  }

  lemma UncutBounded(file: File, s: State)
    requires Running(file, s)
    ensures Uncut(file, s) == Bound(file, s) && Slack(s) >= 0
  {
  }

  /** Every diligent schedule of a running upload reaches the point where the whole file is on disk and
      FILE_END is on its way. */
  lemma EveryScheduleCompletes(file: File, s: State, schedule: nat -> Event) returns (n: nat)
    requires Running(file, s) && Diligent(file, s, schedule)
    ensures Finished(file, After(file, s, schedule, n))
  {
    n := FinishesFrom(file, s, schedule, 0);
  }
}
