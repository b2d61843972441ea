/** front() of the bounded ring beside any number of pushes and pops. It only reads, so a reader is
    added to the step machine of the ring; more readers do not affect each other. */
module FixedQueueFront {
  import opened Common
  import opened FixedQueueSteps

  /** front: about to load tail; to read the slot's sequence; to look at tail again; to copy. */
  datatype Reader = Resting | LoadTail | ReadSequence(pos: nat) | Recheck(pos: nat) | Copy(pos: nat)

  datatype System<V> = System(q: State<V>, reader: Reader)

  datatype Move<V> = Ring(e: Event<V>) | Front

  function ReaderStep<V>(q: State<V>, r: Reader): (r': Reader)
    requires Shaped(q)
  {
    match r
    case Resting => LoadTail
    case LoadTail => ReadSequence(q.tail)
    case ReadSequence(pos) => if q.sq[Slot(q.cap, pos)] == pos + 1 then Recheck(pos) else Resting
    case Recheck(pos) => if q.tail == pos then Copy(pos) else ReadSequence(q.tail)
    case Copy(_) => Resting
  }

  function MoveStep<V>(s: System<V>, m: Move<V>): (s': System<V>)
    requires Shaped(s.q)
    ensures Shaped(s'.q)
  {
    match m
    case Ring(e) => s.(q := Step(s.q, e))
    case Front => s.(reader := ReaderStep(s.q, s.reader))
  }

  function Moves<V>(s: System<V>, moves: seq<Move<V>>): (s': System<V>)
    requires Shaped(s.q)
    ensures Shaped(s'.q)
  {
    if moves == [] then s else MoveStep(Moves(s, moves[..|moves| - 1]), moves[|moves| - 1])
  }

  /** A reader past the sequence check holds a ticket that was published and may have been popped since. */
  ghost predicate ReaderOk<V>(q: State<V>, r: Reader)
    requires Shaped(q)
  {
    match r
    case Resting => true
    case LoadTail => true
    case ReadSequence(pos) => pos <= q.tail
    case Recheck(pos) => pos < q.tail || (pos == q.tail && Published(q, pos))
    case Copy(pos) => pos < q.tail || (pos == q.tail && Published(q, pos))
  }

  /** A published ticket stays published until a pop claims it. */
  lemma PublishedStays<V(!new)>(q: State<V>, e: Event<V>)
    requires Inv(q) && Inv(Step(q, e)) && Published(q, q.tail) && Step(q, e).tail == q.tail
    ensures Published(Step(q, e), q.tail)
  {
    if e.tid in q.pc && OwnsTicket(q.pc[e.tid]) {
      assert ThreadOk(q, e.tid);
      var p := q.pc[e.tid].pos;
      if q.pc[e.tid].PushPublish? && p > q.tail { SlotsDistinct(q.cap, q.tail, p); }
    }
  }

  lemma TailGrows<V>(q: State<V>, e: Event<V>)
    requires Shaped(q)
    ensures Step(q, e).tail >= q.tail && Step(q, e).cap == q.cap
  {
  }

  lemma RingKeeps<V(!new)>(s: System<V>, e: Event<V>)
    requires Inv(s.q) && ReaderOk(s.q, s.reader)
    ensures Inv(Step(s.q, e)) && ReaderOk(Step(s.q, e), s.reader)
  {
    StepKeepsInv(s.q, e);
    TailGrows(s.q, e);
    if (s.reader.Recheck? || s.reader.Copy?) && s.reader.pos == s.q.tail == Step(s.q, e).tail {
      PublishedStays(s.q, e);
    }
  }

  lemma FrontKeeps<V(!new)>(s: System<V>)
    requires Inv(s.q) && ReaderOk(s.q, s.reader)
    ensures ReaderOk(s.q, ReaderStep(s.q, s.reader))
  {
    assert TicketOk(s.q, s.q.tail);
  }

  lemma {:induction false} MovesKeep<V(!new)>(s: System<V>, moves: seq<Move<V>>)
    requires Inv(s.q) && ReaderOk(s.q, s.reader)
    ensures Inv(Moves(s, moves).q) && ReaderOk(Moves(s, moves).q, Moves(s, moves).reader)
  {
    if moves == [] {
    } else {
      var before, m := moves[..|moves| - 1], moves[|moves| - 1];
      MovesKeep(s, before);
      if m.Ring? { RingKeeps(Moves(s, before), m.e); } else { FrontKeeps(Moves(s, before)); }
    }
  }

  function Start<V>(cap: nat, threads: set<Tid>): (s: System<V>)
    requires cap > 0
    ensures Shaped(s.q)
  {
    System(Init<V>(cap, threads), Resting)
  }

  /** The slot still carries the ticket, and no thread is constructing, moving or destroying in it. */
  ghost predicate Undisturbed<V>(q: State<V>, pos: nat)
    requires Shaped(q)
  {
    && q.sq[Slot(q.cap, pos)] == pos + 1
    && forall u :: u in q.pc && OwnsTicket(q.pc[u]) ==> Slot(q.cap, q.pc[u].pos) != Slot(q.cap, pos)
  }

  lemma FrontTicketUndisturbed<V(!new)>(q: State<V>)
    requires Inv(q) && Published(q, q.tail)
    ensures Undisturbed(q, q.tail) && q.cells[Slot(q.cap, q.tail)] == Some(q.pushed[q.tail])
  {
    assert TicketOk(q, q.tail);
    forall u | u in q.pc && OwnsTicket(q.pc[u]) ensures Slot(q.cap, q.pc[u].pos) != Slot(q.cap, q.tail) {
      assert ThreadOk(q, u);
      if q.pc[u].pos > q.tail && q.pc[u].pos < q.tail + q.cap { SlotsDistinct(q.cap, q.tail, q.pc[u].pos); }
    }
  }

  lemma ClaimedTicketDisturbed<V(!new)>(q: State<V>, pos: nat)
    requires Inv(q) && pos < q.tail
    ensures !Undisturbed(q, pos)
  {
    SlotPeriodic(q.cap, pos);
    var t := pos + q.cap;
    if t < q.tail {
      OldTicketSequence(q, t);
    } else {
      assert TicketOk(q, t);
    }
  }

  /** In every run the copy of front reads an undisturbed slot, and then the oldest value, if and only
      if no pop has claimed the front since front looked at tail the second time. */
  lemma CopyUndisturbedExactly<V(!new)>(cap: nat, threads: set<Tid>, moves: seq<Move<V>>)
    requires cap >= 2 && Moves(Start<V>(cap, threads), moves).reader.Copy?
    ensures var s := Moves(Start<V>(cap, threads), moves); var pos := s.reader.pos;
      && (Undisturbed(s.q, pos) <==> s.q.tail == pos)
      && (s.q.tail == pos ==> pos < |s.q.pushed| && s.q.cells[Slot(s.q.cap, pos)] == Some(s.q.pushed[pos]))
  {
    InitInv<V>(cap, threads);
    MovesKeep(Start<V>(cap, threads), moves);
    var s := Moves(Start<V>(cap, threads), moves);
    if s.q.tail == s.reader.pos {
      FrontTicketUndisturbed(s.q);
    } else {
      ClaimedTicketDisturbed(s.q, s.reader.pos);
    }
  }

  /** front ends without a copy only at its look at the sequence, and then a pop has moved tail since it was
      loaded, or the front ticket is not published. */
  lemma FrontGivesUp<V(!new)>(cap: nat, threads: set<Tid>, moves: seq<Move<V>>)
    requires cap >= 2
    requires var s := Moves(Start<V>(cap, threads), moves);
      s.reader != Resting && !s.reader.Copy? && ReaderStep(s.q, s.reader) == Resting
    ensures var s := Moves(Start<V>(cap, threads), moves);
      s.reader.ReadSequence? && (s.reader.pos < s.q.tail || !Published(s.q, s.q.tail))
  {
    InitInv<V>(cap, threads);
    MovesKeep(Start<V>(cap, threads), moves);
  }

  /** As long as no pop has moved tail, front goes on from its look at the sequence if and only if the front
      ticket is published. */
  lemma FrontGoesOnExactly<V(!new)>(cap: nat, threads: set<Tid>, moves: seq<Move<V>>)
    requires cap >= 2
    requires var s := Moves(Start<V>(cap, threads), moves); s.reader == ReadSequence(s.q.tail)
    ensures var s := Moves(Start<V>(cap, threads), moves);
      && (Published(s.q, s.q.tail) <==> ReaderStep(s.q, s.reader) == Recheck(s.q.tail))
      && (!Published(s.q, s.q.tail) <==> ReaderStep(s.q, s.reader) == Resting)
  {
    InitInv<V>(cap, threads);
    MovesKeep(Start<V>(cap, threads), moves);
    var s := Moves(Start<V>(cap, threads), moves);
    assert TicketOk(s.q, s.q.tail);
  }

  // ---- A pop between the second look and the copy ----

  function Rings<V>(events: seq<Event<V>>): (moves: seq<Move<V>>)
  {
    seq(|events|, i requires 0 <= i < |events| => Ring(events[i]))
  }

  lemma {:induction false} RingMoves<V>(s: System<V>, events: seq<Event<V>>)
    requires Shaped(s.q)
    ensures Moves(s, Rings(events)) == System(Run(s.q, events), s.reader)
  {
    if events == [] {
    } else {
      var n := |events| - 1;
      assert Rings(events)[..n] == Rings(events[..n]);
      RingMoves(s, events[..n]);
    }
  }

  lemma {:induction false} MovesAppend<V>(s: System<V>, a: seq<Move<V>>, b: seq<Move<V>>)
    requires Shaped(s.q)
    ensures Moves(s, a + b) == Moves(Moves(s, a), b)
  {
    if b == [] {
      assert a + b == a;
    } else {
      assert (a + b)[..|a + b| - 1] == a + b[..|b| - 1];
      MovesAppend(s, a, b[..|b| - 1]);
    }
  }

  /** front, up to its copy, on a ring whose front ticket is published. */
  lemma FrontReachesCopy<V>(s: System<V>)
    requires Shaped(s.q) && s.reader == Resting && s.q.sq[Slot(s.q.cap, s.q.tail)] == s.q.tail + 1
    ensures Moves(s, [Front, Front, Front, Front]) == s.(reader := Copy(s.q.tail))
  {
    var f: Move<V> := Front;
    assert [f, f, f, f][..3] == [f, f, f] && [f, f, f][..2] == [f, f] && [f, f][..1] == [f] && [f][..0] == [];
    assert Moves(s, [f]) == s.(reader := LoadTail);
    assert Moves(s, [f, f]) == s.(reader := ReadSequence(s.q.tail));
    assert Moves(s, [f, f, f]) == s.(reader := Recheck(s.q.tail));
  }

  lemma PopPrepares<V>(q: State<V>, t: Tid)
    requires Shaped(q) && t in q.pc && q.pc[t].Idle? && q.sq[Slot(q.cap, q.tail)] == q.tail + 1
    ensures var e := Event(t, CallPop, false); var q' := Run(q, [e, e, e]);
      SameRing(q, q') && t in q'.pc && q'.pc[t] == PopCas(q.tail)
  {
    var e: Event<V> := Event(t, CallPop, false);
    RunThree(q, e);
    var q1 := Step(q, e);
    assert SameRing(q, q1) && q1.pc[t] == PopLoad;
    var q2 := Step(q1, e);
    assert SameRing(q, q2) && q2.pc[t] == PopSeq(q.tail);
  }

  /** The value is moved out and its object destroyed. */
  lemma PopDestroys<V>(q: State<V>, t: Tid, v: V)
    requires Shaped(q) && t in q.pc && q.pc[t] == PopCas(q.tail) && q.cells[Slot(q.cap, q.tail)] == Some(v)
    ensures var e := Event(t, CallPop, false); var q' := Run(q, [e, e, e]);
      q'.tail == q.tail + 1 && q'.cap == q.cap && q'.cells[Slot(q.cap, q.tail)] == None
  {
    var e: Event<V> := Event(t, CallPop, false);
    RunThree(q, e);
    var q1 := Step(q, e);
    assert q1.pc[t] == PopRead(q.tail) && q1.cells == q.cells && q1.cap == q.cap;
    var q2 := Step(q1, e);
    assert q2.pc[t] == PopDestroy(q.tail, v);
  }

  /** Six steps of a pop. */
  lemma PopRuns<V>(q: State<V>, t: Tid, v: V)
    requires Shaped(q) && t in q.pc && q.pc[t].Idle? && q.sq[Slot(q.cap, q.tail)] == q.tail + 1
    requires q.cells[Slot(q.cap, q.tail)] == Some(v)
    ensures var e := Event(t, CallPop, false); var q' := Run(q, [e, e, e] + [e, e, e]);
      q'.tail == q.tail + 1 && q'.cap == q.cap && q'.cells[Slot(q.cap, q.tail)] == None
  {
    var e: Event<V> := Event(t, CallPop, false);
    RunAppend(q, [e, e, e], [e, e, e]);
    PopPrepares(q, t);
    PopDestroys(Run(q, [e, e, e]), t, v);
  }

  /** A run on a ring of capacity 2 in which front copies from a slot whose object is destroyed. */
  lemma FrontReadsDestroyed<V>(v: V) returns (moves: seq<Move<V>>)
    ensures var s := Moves(Start<V>(2, {0}), moves);
      && s.reader.Copy? && s.q.cells[Slot(s.q.cap, s.reader.pos)] == None && s.q.tail == s.reader.pos + 1
  {
    var s0 := Start<V>(2, {0});
    var e: Event<V> := Event(0, CallPop, false);
    var pops := [e, e, e] + [e, e, e];
    WholePushAppends(s0.q, 0, v);
    var q1 := Run(s0.q, WholePush(0, v));
    PopRuns(q1, 0, v);
    var push, front, pop := Rings(WholePush(0, v)), [Front, Front, Front, Front], Rings(pops);
    moves := push + (front + pop);
    RingMoves(s0, WholePush(0, v));
    FrontReachesCopy(System(q1, Resting));
    RingMoves(System(q1, Copy(0)), pops);
    MovesAppend(System(q1, Resting), front, pop);
    MovesAppend(s0, push, front + pop);
  }
}
