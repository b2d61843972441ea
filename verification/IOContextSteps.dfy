/** The I/O context pool under interleaving: any number of threads borrow and return context indices
    through the steps of the bounded ring. */
module IOContextSteps {
  import opened Common
  import Q = FixedQueueSteps

  /** Where a context index is: in the ring under this ticket; claimed by a pop; with a borrower; with
      a thread that is putting it back and has no ticket yet; or dropped by a push that gave up. */
  datatype Place = Queued(ticket: nat) | Leaving(ticket: nat) | Out | Entering(tid: Q.Tid) | Lost

  datatype System = System(q: Q.State<nat>, place: seq<Place>)

  type Event = Q.Event<nat>

  predicate Entered(pc: Q.Pc<nat>)
  {
    pc.PushLoad? || pc.PushSeq? || pc.PushCas?
  }

  predicate Claims(pc: Q.Pc<nat>)
  {
    pc.PopRead? || pc.PopDestroy? || pc.PopRelease?
  }

  /** A borrower returns only what it has. */
  predicate Permitted(s: System, e: Event)
  {
    e.tid in s.q.pc && (s.q.pc[e.tid].Idle? && e.call.CallPush? ==> e.call.val < |s.place| && s.place[e.call.val].Out?)
  }

  /** The move of an index that goes with a step of the ring from pc to pc'. */
  function Moved(s: System, e: Event, pc: Q.Pc<nat>, pc': Q.Pc<nat>): (place: seq<Place>)
    ensures |place| == |s.place|
  {
    if pc.Idle? && pc'.PushLoad? then Put(s.place, pc'.val, Entering(e.tid))
    else if pc.PushSeq? && pc'.Idle? then Put(s.place, pc.val, Lost)
    else if pc.PushCas? && pc'.PushWrite? then Put(s.place, pc.val, Queued(pc.pos))
    else if pc.PopCas? && pc'.PopRead? && pc.pos < |s.q.pushed| then Put(s.place, s.q.pushed[pc.pos], Leaving(pc.pos))
    else if pc.PopRelease? && pc'.Idle? then Put(s.place, pc.val, Out)
    else s.place
  }

  function Put(place: seq<Place>, v: nat, p: Place): (place': seq<Place>)
    ensures |place'| == |place|
  {
    if v < |place| then place[v := p] else place
  }

  function Step(s: System, e: Event): (s': System)
    requires Q.Shaped(s.q)
    ensures Q.Shaped(s'.q) && |s'.place| == |s.place|
  {
    if !Permitted(s, e) then s else
    var q' := Q.Step(s.q, e);
    System(q', Moved(s, e, s.q.pc[e.tid], q'.pc[e.tid]))
  }

  function Run(s: System, events: seq<Event>): (s': System)
    requires Q.Shaped(s.q)
    ensures Q.Shaped(s'.q) && |s'.place| == |s.place|
  {
    if events == [] then s else Step(Run(s, events[..|events| - 1]), events[|events| - 1])
  }

  // ---- The invariant ----

  /** The ticket's value is an index that is in the ring under this ticket. */
  ghost predicate TicketPlaced(s: System, t: nat)
    requires t < |s.q.pushed|
  {
    s.q.pushed[t] < |s.place| && s.place[s.q.pushed[t]] == Queued(t)
  }

  ghost predicate ThreadPlaced(s: System, tid: Q.Tid)
    requires tid in s.q.pc
  {
    var pc := s.q.pc[tid];
    && (Entered(pc) ==> pc.val < |s.place| && s.place[pc.val] == Entering(tid))
    && (Claims(pc) ==> ClaimPlaced(s, tid, pc.pos))
  }

  /** Ticket t is claimed by the pop of this thread, and its value is on its way out. */
  ghost predicate ClaimPlaced(s: System, tid: Q.Tid, t: nat)
  {
    && t < |s.q.popBy| && s.q.popBy[t] == tid
    && t < |s.q.pushed| && s.q.pushed[t] < |s.place| && s.place[s.q.pushed[t]] == Leaving(t)
  }

  ghost predicate IndexPlaced(s: System, v: nat)
    requires v < |s.place|
  {
    match s.place[v]
    case Queued(t) => s.q.tail <= t < |s.q.pushed| && s.q.pushed[t] == v
    case Leaving(t) =>
      && t < s.q.tail && t < |s.q.pushed| && t < |s.q.popBy| && s.q.pushed[t] == v && s.q.popBy[t] in s.q.pc
      && Claims(s.q.pc[s.q.popBy[t]]) && s.q.pc[s.q.popBy[t]].pos == t
    case Entering(tid) => tid in s.q.pc && Entered(s.q.pc[tid]) && s.q.pc[tid].val == v
    case Out => true
    case Lost => true
  }

  /** Every index is in exactly one place, and the ring and its threads agree with it. */
  ghost predicate Placed(s: System)
  {
    && s.q.tail <= s.q.head == |s.q.pushed| && |s.q.popBy| == s.q.tail
    && (forall t: nat :: s.q.tail <= t < s.q.head ==> TicketPlaced(s, t))
    && (forall tid :: tid in s.q.pc ==> ThreadPlaced(s, tid))
    && (forall v: nat :: v < |s.place| ==> IndexPlaced(s, v))
  }

  ghost predicate Inv(s: System)
  {
    Q.Inv(s.q) && |s.place| < s.q.cap && Placed(s)
  }

  /** A step of a thread from pc to pc' that moves no index. */
  predicate Still(pc: Q.Pc<nat>, pc': Q.Pc<nat>)
  {
    && Entered(pc) == Entered(pc') && Claims(pc) == Claims(pc')
    && (Entered(pc) ==> pc'.val == pc.val) && (Claims(pc) ==> pc'.pos == pc.pos)
  }

  lemma StillPlaced(s: System, s': System, tid: Q.Tid)
    requires Placed(s) && s'.place == s.place && tid in s.q.pc && tid in s'.q.pc && Still(s.q.pc[tid], s'.q.pc[tid])
    requires s'.q.pc == s.q.pc[tid := s'.q.pc[tid]] && s'.q.pushed == s.q.pushed && s'.q.popBy == s.q.popBy
    requires s'.q.head == s.q.head && s'.q.tail == s.q.tail
    ensures Placed(s')
  {
    forall t: nat | s'.q.tail <= t < s'.q.head ensures TicketPlaced(s', t) { assert TicketPlaced(s, t); }
    forall u | u in s'.q.pc ensures ThreadPlaced(s', u) { assert ThreadPlaced(s, u); }
    forall v: nat | v < |s'.place| ensures IndexPlaced(s', v) { assert IndexPlaced(s, v); }
  }

  /** An idle or entering thread's index changes place: the thread and the index alone are affected. */
  lemma EnterPlaced(s: System, s': System, tid: Q.Tid, v: nat)
    requires Placed(s) && tid in s.q.pc && tid in s'.q.pc && v < |s.place| && !Claims(s.q.pc[tid])
    requires s.place[v] == Out || s.place[v] == Entering(tid)
    requires Entered(s.q.pc[tid]) ==> s.q.pc[tid].val == v
    requires |s'.place| == |s.place| && s'.place == s.place[v := s'.place[v]] && !Claims(s'.q.pc[tid])
    requires s'.place[v] == if Entered(s'.q.pc[tid]) then Entering(tid) else Lost
    requires Entered(s'.q.pc[tid]) ==> s'.q.pc[tid].val == v
    requires s'.q.pc == s.q.pc[tid := s'.q.pc[tid]] && s'.q.pushed == s.q.pushed && s'.q.popBy == s.q.popBy
    requires s'.q.head == s.q.head && s'.q.tail == s.q.tail
    ensures Placed(s')
  {
    forall t: nat | s'.q.tail <= t < s'.q.head ensures TicketPlaced(s', t) { assert TicketPlaced(s, t); }
    forall u | u in s'.q.pc ensures ThreadPlaced(s', u) { assert ThreadPlaced(s, u); }
    forall x: nat | x < |s'.place| ensures IndexPlaced(s', x) { assert IndexPlaced(s, x); }
  }

  lemma PushClaimPlaced(s: System, e: Event)
    requires Q.Shaped(s.q) && Placed(s) && Permitted(s, e)
    requires s.q.pc[e.tid].PushCas? && Q.Step(s.q, e).pc[e.tid].PushWrite?
    ensures Placed(Step(s, e))
  {
    var s', v := Step(s, e), s.q.pc[e.tid].val;
    assert ThreadPlaced(s, e.tid);
    forall t: nat | s'.q.tail <= t < s'.q.head ensures TicketPlaced(s', t) {
      if t < s.q.head { assert TicketPlaced(s, t); }
    }
    forall u | u in s'.q.pc ensures ThreadPlaced(s', u) { assert ThreadPlaced(s, u); }
    forall x: nat | x < |s'.place| ensures IndexPlaced(s', x) { assert IndexPlaced(s, x); }
  }

  lemma PopClaimPlaced(s: System, e: Event)
    requires Q.Shaped(s.q) && Placed(s) && Permitted(s, e) && s.q.tail < s.q.head
    requires s.q.pc[e.tid].PopCas? && Q.Step(s.q, e).pc[e.tid].PopRead?
    ensures Placed(Step(s, e))
  {
    var s', pos := Step(s, e), s.q.pc[e.tid].pos;
    assert TicketPlaced(s, pos);
    forall t: nat | s'.q.tail <= t < s'.q.head ensures TicketPlaced(s', t) { assert TicketPlaced(s, t); }
    forall u | u in s'.q.pc ensures ThreadPlaced(s', u) { assert ThreadPlaced(s, u); }
    forall x: nat | x < |s'.place| ensures IndexPlaced(s', x) { assert IndexPlaced(s, x); }
  }

  lemma ReleasePlaced(s: System, e: Event)
    requires Q.Shaped(s.q) && Placed(s) && Permitted(s, e)
    requires s.q.pc[e.tid].PopRelease? && s.q.pc[e.tid].val == s.q.pushed[s.q.pc[e.tid].pos]
    ensures Placed(Step(s, e))
  {
    var s', pos := Step(s, e), s.q.pc[e.tid].pos;
    assert ThreadPlaced(s, e.tid);
    forall t: nat | s'.q.tail <= t < s'.q.head ensures TicketPlaced(s', t) { assert TicketPlaced(s, t); }
    forall u | u in s'.q.pc ensures ThreadPlaced(s', u) { assert ThreadPlaced(s, u); }
    forall x: nat | x < |s'.place| ensures IndexPlaced(s', x) { assert IndexPlaced(s, x); }
  }

  /** The steps of the ring that move an index. */
  predicate Moves(pc: Q.Pc<nat>, pc': Q.Pc<nat>)
  {
    || (pc.Idle? && pc'.PushLoad?) || (pc.PushSeq? && pc'.Idle?) || (pc.PushCas? && pc'.PushWrite?)
    || (pc.PopCas? && pc'.PopRead?) || (pc.PopRelease? && pc'.Idle?)
  }

  predicate Pushes(pc: Q.Pc<nat>)
  {
    Entered(pc) || pc.PushWrite? || pc.PushPublish?
  }

  /** The ring is as before but for sequences, cells and this thread's position. */
  predicate StillRing(q: Q.State<nat>, q': Q.State<nat>, tid: Q.Tid)
    requires tid in q.pc && tid in q'.pc
  {
    && q'.pc == q.pc[tid := q'.pc[tid]] && q'.pushed == q.pushed && q'.popBy == q.popBy
    && q'.head == q.head && q'.tail == q.tail && Still(q.pc[tid], q'.pc[tid])
  }

  lemma StillPushPc(q: Q.State<nat>, e: Event)
    requires Q.Shaped(q) && e.tid in q.pc && Pushes(q.pc[e.tid]) && !Moves(q.pc[e.tid], Q.Step(q, e).pc[e.tid])
    ensures e.tid in Q.Step(q, e).pc && StillRing(q, Q.Step(q, e), e.tid)
  {
  }

  lemma StillPopPc(q: Q.State<nat>, e: Event)
    requires Q.Shaped(q) && e.tid in q.pc && !Pushes(q.pc[e.tid]) && !Moves(q.pc[e.tid], Q.Step(q, e).pc[e.tid])
    ensures e.tid in Q.Step(q, e).pc && StillRing(q, Q.Step(q, e), e.tid)
  {
    if q.pc[e.tid].PopRead? && q.cells[Q.Slot(q.cap, q.pc[e.tid].pos)].None? { assert q.pc[e.tid := q.pc[e.tid]] == q.pc; }
  }

  lemma StillStep(s: System, e: Event)
    requires Q.Shaped(s.q) && Placed(s) && Permitted(s, e) && !Moves(s.q.pc[e.tid], Q.Step(s.q, e).pc[e.tid])
    ensures Placed(System(Q.Step(s.q, e), s.place))
  {
    if Pushes(s.q.pc[e.tid]) { StillPushPc(s.q, e); } else { StillPopPc(s.q, e); }
    StillPlaced(s, System(Q.Step(s.q, e), s.place), e.tid);
  }

  lemma MovePlaced(s: System, e: Event)
    requires Inv(s) && Permitted(s, e) && Moves(s.q.pc[e.tid], Q.Step(s.q, e).pc[e.tid])
    ensures Placed(Step(s, e))
  {
    var pc, s' := s.q.pc[e.tid], Step(s, e);
    assert ThreadPlaced(s, e.tid) && Q.ThreadOk(s.q, e.tid);
    match pc
    case Idle => EnterPlaced(s, s', e.tid, e.call.val);
    case PushSeq(_, v) => EnterPlaced(s, s', e.tid, v);
    case PushCas(_, _) => PushClaimPlaced(s, e);
    case PopCas(_) => Q.PopClaimEnabled(s.q, e.tid); PopClaimPlaced(s, e);
    case PopRelease(_, _) => ReleasePlaced(s, e);
  }

  lemma StepKeeps(s: System, e: Event)
    requires Inv(s)
    ensures Inv(Step(s, e))
  {
    if Permitted(s, e) {
      Q.StepKeepsInv(s.q, e);
      if Moves(s.q.pc[e.tid], Q.Step(s.q, e).pc[e.tid]) {
        MovePlaced(s, e);
      } else {
        StillStep(s, e);
        assert Step(s, e) == System(Q.Step(s.q, e), s.place);
      }
      CapStays(s.q, e);
    }
  }

  lemma CapStays(q: Q.State<nat>, e: Event)
    requires Q.Shaped(q)
    ensures Q.Step(q, e).cap == q.cap
  {
  }

  lemma {:induction false} RunKeeps(s: System, events: seq<Event>)
    requires Inv(s)
    ensures Inv(Run(s, events))
  {
    if events == [] {
    } else {
      var before, last := events[..|events| - 1], events[|events| - 1];
      RunKeeps(s, before);
      StepKeeps(Run(s, before), last);
    }
  }

  // ---- When an index is lost ----

  /** The ring never fills up: there are fewer indices than slots. */
  lemma NeverFull(s: System)
    requires Inv(s)
    ensures s.q.head - s.q.tail <= |s.place| < s.q.cap
  {
    var queued := s.q.pushed[s.q.tail..];
    forall i | 0 <= i < |queued| ensures queued[i] < |s.place| && s.place[queued[i]] == Queued(s.q.tail + i) {
      assert TicketPlaced(s, s.q.tail + i);
    }
    var inUse := seq(|s.place|, v => v !in queued);
    assert forall v: nat :: v < |s.place| ==> (v in queued <==> !inUse[v]);
    FreePlusInUse(queued, inUse);
  }

  /** The pop that last held the next slot has claimed it and not released it. */
  ghost predicate Unreleased(q: Q.State<nat>)
  {
    && q.cap <= q.head && q.head - q.cap < |q.popBy| && q.popBy[q.head - q.cap] in q.pc
    && Q.Popping(q.pc[q.popBy[q.head - q.cap]], q.head - q.cap)
  }

  /** A thread that puts a context back reads the slot of the next ticket while it is unreleased. */
  ghost predicate Loses(s: System, e: Event)
  {
    Permitted(s, e) && s.q.pc[e.tid].PushSeq? && s.q.pc[e.tid].pos == s.q.head && Unreleased(s.q)
  }

  lemma GivesUpExactly(s: System, e: Event)
    requires Inv(s) && Permitted(s, e) && s.q.pc[e.tid].PushSeq?
    ensures Q.Step(s.q, e).pc[e.tid].Idle? <==> Loses(s, e)
  {
    NeverFull(s);
    Q.PushGivesUpExactlyWhenSlotUnreleased(s.q, e);
    if Unreleased(s.q) {
      var p := s.q.head - s.q.cap;
      Q.SlotPeriodic(s.q.cap, p);
      assert Q.ThreadOk(s.q, s.q.popBy[p]);
    }
  }

  /** A step loses an index if and only if it is such a read, and then exactly the index put back. */
  lemma LosesExactly(s: System, e: Event, v: nat)
    requires Inv(s) && v < |s.place| && !s.place[v].Lost?
    ensures Step(s, e).place[v].Lost? <==> Loses(s, e) && s.q.pc[e.tid].val == v
  {
    if Permitted(s, e) && s.q.pc[e.tid].PushSeq? { GivesUpExactly(s, e); assert ThreadPlaced(s, e.tid); }
  }

  lemma LostStays(s: System, e: Event, v: nat)
    requires Inv(s) && v < |s.place| && s.place[v].Lost?
    ensures Step(s, e).place[v].Lost?
  {
    if Permitted(s, e) {
      assert ThreadPlaced(s, e.tid) && Q.ThreadOk(s.q, e.tid);
      if s.q.pc[e.tid].PopCas? && Q.Step(s.q, e).pc[e.tid].PopRead? {
        Q.PopClaimEnabled(s.q, e.tid);
        assert TicketPlaced(s, s.q.tail);
      }
    }
  }

  predicate NoneLost(s: System)
  {
    forall v :: 0 <= v < |s.place| ==> !s.place[v].Lost?
  }

  ghost predicate LosesAt(s: System, events: seq<Event>, j: nat)
    requires Q.Shaped(s.q) && j < |events|
  {
    Loses(Run(s, events[..j]), events[j])
  }

  lemma LosesAtEnd(s: System, events: seq<Event>)
    requires Q.Shaped(s.q) && events != []
    ensures var n := |events| - 1;
      (forall j: nat :: j < n + 1 ==> !LosesAt(s, events, j)) <==>
      (forall j: nat :: j < n ==> !LosesAt(s, events[..n], j)) && !LosesAt(s, events, n)
  {
    var n := |events| - 1;
    forall j: nat | j < n ensures LosesAt(s, events[..n], j) <==> LosesAt(s, events, j) {
      assert events[..n][..j] == events[..j] && events[..n][j] == events[j];
    }
  }

  /** In every run the pool keeps all its indices if and only if no context is put back while the pop
      of the ticket one capacity earlier is between its compare-exchange and its release. */
  lemma {:induction false} KeepsAllExactly(s: System, events: seq<Event>)
    requires Inv(s) && NoneLost(s)
    ensures NoneLost(Run(s, events)) <==> forall j: nat :: j < |events| ==> !LosesAt(s, events, j)
  {
    if events == [] {
    } else {
      var n := |events| - 1;
      KeepsAllExactly(s, events[..n]);
      RunKeeps(s, events[..n]);
      StepLoses(Run(s, events[..n]), events[n]);
      LosesAtEnd(s, events);
    }
  }

  lemma StepLoses(s: System, e: Event)
    requires Inv(s)
    ensures NoneLost(Step(s, e)) <==> NoneLost(s) && !Loses(s, e)
  {
    if !NoneLost(s) {
      var v: nat :| v < |s.place| && s.place[v].Lost?;
      LostStays(s, e, v);
    } else if Loses(s, e) {
      LosesOne(s, e);
    } else {
      forall v: nat | v < |s.place| ensures !Step(s, e).place[v].Lost? { LosesExactly(s, e, v); }
    }
  }

  lemma LosesOne(s: System, e: Event)
    requires Inv(s) && NoneLost(s) && Loses(s, e)
    ensures !NoneLost(Step(s, e))
  {
    assert ThreadPlaced(s, e.tid);
    LosesExactly(s, e, s.q.pc[e.tid].val);
  }

  // ---- The pool as the constructor leaves it ----

  /** Tickets 0 to n - 1 are published with their own numbers, and no thread is at work. */
  function Filled(cap: nat, n: nat, threads: set<Q.Tid>): (s: System)
    requires n < cap
    ensures Q.Shaped(s.q)
  {
    System(Q.State(cap, seq(cap, i => if i < n then i + 1 else i), seq(cap, i => if i < n then Some(i) else None), n, 0,
                   map t | t in threads :: Q.Idle, seq(n, i => i), seq(n, i => 0), [], map[]),
           seq(n, i requires 0 <= i => Queued(i)))
  }

  lemma FilledInv(cap: nat, n: nat, threads: set<Q.Tid>)
    requires 2 <= cap && n < cap
    ensures Inv(Filled(cap, n, threads)) && NoneLost(Filled(cap, n, threads))
  {
    var s := Filled(cap, n, threads);
    forall t: nat | t < cap ensures Q.TicketOk(s.q, t) { Q.SlotSmall(cap, t); }
    assert forall t: nat :: Q.ReturnOk(s.q, t);
    forall t: nat | t < n ensures TicketPlaced(s, t) { }
    forall v: nat | v < n ensures IndexPlaced(s, v) { }
  }

  /** From the constructor on, for any number of contexts below the capacity of the ring. */
  lemma PoolKeepsAllExactly(cap: nat, n: nat, threads: set<Q.Tid>, events: seq<Event>)
    requires 2 <= cap && n < cap
    ensures var s := Filled(cap, n, threads);
      NoneLost(Run(s, events)) <==> forall j: nat :: j < |events| ==> !LosesAt(s, events, j)
  {
    FilledInv(cap, n, threads);
    KeepsAllExactly(Filled(cap, n, threads), events);
  }

  // ---- A run that loses an index ----

  /** Only this thread's position changed. */
  ghost predicate Same(s: System, s': System, tid: Q.Tid)
  {
    && s'.place == s.place && Q.SameRing(s.q, s'.q) && s'.q.pushed == s.q.pushed && s'.q.popBy == s.q.popBy
    && tid in s'.q.pc && s'.q.pc == s.q.pc[tid := s'.q.pc[tid]]
  }

  function Thrice(s: System, e: Event): (s': System)
    requires Q.Shaped(s.q)
    ensures Q.Shaped(s'.q)
  {
    Step(Step(Step(s, e), e), e)
  }

  lemma RunThrice(s: System, e: Event)
    requires Q.Shaped(s.q)
    ensures Run(s, [e, e, e]) == Thrice(s, e)
  {
    assert [e, e, e][..2] == [e, e] && [e, e][..1] == [e] && [e][..0] == [];
    assert Run(s, [e]) == Step(Run(s, []), e);
    assert Run(s, [e, e]) == Step(Run(s, [e]), e);
  }

  lemma {:induction false} RunAppend(s: System, a: seq<Event>, b: seq<Event>)
    requires Q.Shaped(s.q)
    ensures Run(s, a + b) == Run(Run(s, a), b)
  {
    if b == [] {
      assert a + b == a;
    } else {
      assert (a + b)[..|a + b| - 1] == a + b[..|b| - 1];
      RunAppend(s, a, b[..|b| - 1]);
    }
  }

  /** A pop up to its compare-exchange, on a published front. */
  lemma PopArrives(s: System, t: Q.Tid)
    requires Q.Shaped(s.q) && t in s.q.pc && s.q.pc[t].Idle? && s.q.sq[Q.Slot(s.q.cap, s.q.tail)] == s.q.tail + 1
    ensures var s' := Thrice(s, Q.Event(t, Q.CallPop, false)); Same(s, s', t) && s'.q.pc[t] == Q.PopCas(s.q.tail)
  {
    var e: Event := Q.Event(t, Q.CallPop, false);
    var s1 := Step(s, e);
    assert Same(s, s1, t) && s1.q.pc[t] == Q.PopLoad;
    var s2 := Step(s1, e);
    assert Same(s, s2, t) && s2.q.pc[t] == Q.PopSeq(s.q.tail);
  }

  /** The pop of thread t has claimed the front ticket. */
  ghost predicate Claimed(s: System, s': System, t: Q.Tid)
  {
    && s'.q.cap == s.q.cap && s'.q.head == s.q.head && s'.q.tail == s.q.tail + 1
    && s'.q.pushed == s.q.pushed && s'.q.popBy == s.q.popBy + [t]
    && t in s'.q.pc && s'.q.pc == s.q.pc[t := s'.q.pc[t]]
  }

  lemma PopClaims(s: System, t: Q.Tid)
    requires Q.Shaped(s.q) && t in s.q.pc && s.q.pc[t] == Q.PopCas(s.q.tail)
    ensures var s' := Step(s, Q.Event(t, Q.CallPop, false)); Claimed(s, s', t) && s'.q.pc[t] == Q.PopRead(s.q.tail)
  {
  }

  /** Move out, destroy, release. */
  lemma PopLeaves(s: System, t: Q.Tid, pos: nat, v: nat)
    requires Q.Shaped(s.q) && t in s.q.pc && s.q.pc[t] == Q.PopRead(pos) && s.q.cells[Q.Slot(s.q.cap, pos)] == Some(v)
    requires v < |s.place|
    ensures var s' := Thrice(s, Q.Event(t, Q.CallPop, false));
      && s'.q.cap == s.q.cap && s'.q.head == s.q.head && s'.q.tail == s.q.tail && s'.q.popBy == s.q.popBy
      && t in s'.q.pc && s'.q.pc == s.q.pc[t := Q.Idle] && v < |s'.place| && s'.place[v] == Out
  {
    var e: Event := Q.Event(t, Q.CallPop, false);
    var s1 := Step(s, e);
    assert s1.q.pc == s.q.pc[t := Q.PopDestroy(pos, v)] && s1.q.popBy == s.q.popBy && s1.q.tail == s.q.tail;
    var s2 := Step(s1, e);
    assert s2.q.pc == s.q.pc[t := Q.PopRelease(pos, v)] && s2.q.popBy == s.q.popBy && s2.q.tail == s.q.tail;
  }

  /** A push up to its compare-exchange, on a free slot. */
  lemma PushArrives(s: System, t: Q.Tid, v: nat)
    requires Q.Shaped(s.q) && t in s.q.pc && s.q.pc[t].Idle? && v < |s.place| && s.place[v] == Out
    requires s.q.sq[Q.Slot(s.q.cap, s.q.head)] == s.q.head
    ensures var s' := Thrice(s, Q.Event(t, Q.CallPush(v), false));
      && Q.SameRing(s.q, s'.q) && s'.q.popBy == s.q.popBy && t in s'.q.pc && s'.q.pc == s.q.pc[t := Q.PushCas(s.q.head, v)]
  {
    var e: Event := Q.Event(t, Q.CallPush(v), false);
    var s1 := Step(s, e);
    assert Q.SameRing(s.q, s1.q) && s1.q.pc == s.q.pc[t := Q.PushLoad(v)] && s1.q.popBy == s.q.popBy;
    var s2 := Step(s1, e);
    assert Q.SameRing(s.q, s2.q) && s2.q.pc == s.q.pc[t := Q.PushSeq(s.q.head, v)] && s2.q.popBy == s.q.popBy;
  }

  lemma PushLands(s: System, t: Q.Tid, v: nat)
    requires Q.Shaped(s.q) && t in s.q.pc && s.q.pc[t] == Q.PushCas(s.q.head, v)
    ensures var s' := Thrice(s, Q.Event(t, Q.CallPush(v), false));
      && s'.q.cap == s.q.cap && s'.q.head == s.q.head + 1 && s'.q.tail == s.q.tail && s'.q.popBy == s.q.popBy
      && t in s'.q.pc && s'.q.pc == s.q.pc[t := Q.Idle]
  {
    var e: Event := Q.Event(t, Q.CallPush(v), false);
    var s1 := Step(s, e);
    assert s1.q.pc == s.q.pc[t := Q.PushWrite(s.q.head, v)] && s1.q.head == s.q.head + 1 && s1.q.popBy == s.q.popBy;
    var s2 := Step(s1, e);
    assert s2.q.pc == s.q.pc[t := Q.PushPublish(s.q.head, v)] && s2.q.head == s.q.head + 1 && s2.q.popBy == s.q.popBy;
  }

  /** Thread 0 stands in its pop with ticket 0 claimed; no other thread is at work. */
  ghost predicate Stalling(s: System)
  {
    && Inv(s) && s.q.pc.Keys == {0, 1} && s.q.pc[0] == Q.PopRead(0) && s.q.pc[1] == Q.Idle
    && 1 <= s.q.tail < s.q.head <= s.q.cap && s.q.popBy[0] == 0
  }

  /** As Stalling, but thread 1 holds index v. */
  ghost predicate Holding(s: System, v: nat)
  {
    && Inv(s) && s.q.pc.Keys == {0, 1} && s.q.pc[0] == Q.PopRead(0) && s.q.pc[1] == Q.Idle
    && 1 <= s.q.tail <= s.q.head <= s.q.cap && s.q.popBy != [] && s.q.popBy[0] == 0
    && v < |s.place| && s.place[v] == Out
  }

  lemma FrontPublished(s: System)
    requires Stalling(s)
    ensures s.q.sq[Q.Slot(s.q.cap, s.q.tail)] == s.q.tail + 1
    ensures s.q.cells[Q.Slot(s.q.cap, s.q.tail)] == Some(s.q.pushed[s.q.tail]) && s.q.pushed[s.q.tail] < |s.place|
  {
    assert Q.TicketOk(s.q, s.q.tail) && TicketPlaced(s, s.q.tail);
  }

  /** Thread 1 has claimed a ticket too, and its value is still in the slot. */
  ghost predicate Taking(s: System, pos: nat, v: nat)
  {
    && Inv(s) && s.q.pc.Keys == {0, 1} && s.q.pc[0] == Q.PopRead(0) && s.q.pc[1] == Q.PopRead(pos)
    && 1 <= pos && s.q.tail == pos + 1 <= s.q.head <= s.q.cap && s.q.popBy[0] == 0
    && s.q.cells[Q.Slot(s.q.cap, pos)] == Some(v) && v < |s.place|
  }

  lemma BorrowClaims(s: System) returns (events: seq<Event>, v: nat)
    requires Stalling(s)
    ensures var s' := Run(s, events); Taking(s', s.q.tail, v) && s'.q.head == s.q.head && s'.q.cap == s.q.cap
  {
    var e: Event := Q.Event(1, Q.CallPop, false);
    FrontPublished(s);
    v := s.q.pushed[s.q.tail];
    PopArrives(s, 1);
    var s1 := Thrice(s, e);
    PopClaims(s1, 1);
    events := [e, e, e] + [e];
    RunThrice(s, e);
    RunOne(s1, e);
    RunAppend(s, [e, e, e], [e]);
    RunKeeps(s, events);
    assert Q.ThreadOk(Step(s1, e).q, 1);
  }

  lemma BorrowLeaves(s: System, pos: nat, v: nat) returns (events: seq<Event>)
    requires Taking(s, pos, v)
    ensures var s' := Run(s, events); Holding(s', v) && s'.q.head == s.q.head && s'.q.tail == s.q.tail && s'.q.cap == s.q.cap
  {
    var e: Event := Q.Event(1, Q.CallPop, false);
    events := [e, e, e];
    PopLeaves(s, 1, pos, v);
    RunThrice(s, e);
    RunKeeps(s, events);
  }

  /** Thread 1 borrows. */
  lemma Borrow(s: System) returns (events: seq<Event>, v: nat)
    requires Stalling(s)
    ensures var s' := Run(s, events); Holding(s', v) && s'.q.head == s.q.head && s'.q.tail == s.q.tail + 1 && s'.q.cap == s.q.cap
  {
    var claiming, w := BorrowClaims(s);
    var leaving := BorrowLeaves(Run(s, claiming), s.q.tail, w);
    RunAppend(s, claiming, leaving);
    events, v := claiming + leaving, w;
  }

  lemma RunOne(s: System, e: Event)
    requires Q.Shaped(s.q)
    ensures Run(s, [e]) == Step(s, e)
  {
    assert [e][..0] == [];
  }

  /** Thread 1 puts v back while there is a slot before the stalled one. */
  lemma PutBack(s: System, v: nat) returns (events: seq<Event>)
    requires Holding(s, v) && s.q.head < s.q.cap
    ensures var s' := Run(s, events); Stalling(s') && s'.q.head == s.q.head + 1 && s'.q.tail == s.q.tail && s'.q.cap == s.q.cap
  {
    var e: Event := Q.Event(1, Q.CallPush(v), false);
    assert Q.TicketOk(s.q, s.q.head);
    PushArrives(s, 1, v);
    var s1 := Thrice(s, e);
    PushLands(s1, 1, v);
    events := [e, e, e] + [e, e, e];
    RunThrice(s, e);
    RunThrice(s1, e);
    RunAppend(s, [e, e, e], [e, e, e]);
    RunKeeps(s, events);
  }

  /** Thread 1 borrows and puts back until the stalled slot is next. */
  lemma {:induction false} TurnRound(s: System) returns (events: seq<Event>)
    requires Stalling(s)
    ensures var s' := Run(s, events); Stalling(s') && s'.q.head == s'.q.cap == s.q.cap
    decreases s.q.cap - s.q.head
  {
    if s.q.head == s.q.cap {
      events := [];
    } else {
      var out, v := Borrow(s);
      var s1 := Run(s, out);
      var back := PutBack(s1, v);
      var s2 := Run(s1, back);
      var rest := TurnRound(s2);
      RunAppend(s1, back, rest);
      RunAppend(s, out, back + rest);
      events := out + (back + rest);
    }
  }

  lemma ReturnMeetsStall(s: System, v: nat)
    requires Holding(s, v) && s.q.head == s.q.cap
    ensures var e: Event := Q.Event(1, Q.CallPush(v), false); Loses(Step(Step(s, e), e), e)
  {
    var e: Event := Q.Event(1, Q.CallPush(v), false);
    var s1 := Step(s, e);
    assert Q.SameRing(s.q, s1.q) && s1.q.pc == s.q.pc[1 := Q.PushLoad(v)] && s1.q.popBy == s.q.popBy;
  }

  /** One pop stalls after its compare-exchange, a second thread borrows and returns for a whole turn of
      the ring, and then its return drops the index. */
  lemma IndexGetsLost(cap: nat, n: nat) returns (events: seq<Event>)
    requires 2 <= n < cap
    ensures !NoneLost(Run(Filled(cap, n, {0, 1}), events))
  {
    var s := Filled(cap, n, {0, 1});
    var claim := StallFirst(cap, n);
    var s1 := Run(s, claim);
    var turn := TurnRound(s1);
    var s2 := Run(s1, turn);
    var out, v := Borrow(s2);
    var s3 := Run(s2, out);
    var e: Event := Q.Event(1, Q.CallPush(v), false);
    ReturnMeetsStall(s3, v);
    RunThrice(s3, e);
    LastLoss(s3, e);
    events := claim + (turn + (out + [e, e, e]));
    RunAppend(s2, out, [e, e, e]);
    RunAppend(s1, turn, out + [e, e, e]);
    RunAppend(s, claim, turn + (out + [e, e, e]));
  }

  lemma LastLoss(s: System, e: Event)
    requires Inv(s) && Loses(Step(Step(s, e), e), e)
    ensures !NoneLost(Thrice(s, e))
  {
    StepKeeps(s, e);
    StepKeeps(Step(s, e), e);
    StepLoses(Step(Step(s, e), e), e);
  }

  /** Thread 0 claims ticket 0 and stands still. */
  lemma StallFirst(cap: nat, n: nat) returns (events: seq<Event>)
    requires 2 <= n < cap
    ensures var s' := Run(Filled(cap, n, {0, 1}), events); Stalling(s') && s'.q.cap == cap
  {
    var s := Filled(cap, n, {0, 1});
    var e: Event := Q.Event(0, Q.CallPop, false);
    FilledInv(cap, n, {0, 1});
    Q.SlotSmall(cap, 0);
    PopArrives(s, 0);
    var s1 := Thrice(s, e);
    PopClaims(s1, 0);
    RunThrice(s, e);
    RunOne(s1, e);
    RunAppend(s, [e, e, e], [e]);
    events := [e, e, e] + [e];
    RunKeeps(s, events);
  }
}
