/** Fqueue as a step machine: any number of threads run push and pop at once, and
    every load, compare-exchange, data access and sequence store is one step.
    Memory is sequentially consistent and tickets are unbounded. */
module FixedQueueSteps {
  import opened Common
  import Bits

  type Tid = nat

  /** What a thread does next, with the locals it holds. */
  datatype Pc<V> =
    | Idle
    | PushLoad(val: V)                 // load head
    | PushSeq(pos: nat, val: V)        // load slot.sequence
    | PushCas(pos: nat, val: V)        // the sequence was pos: compare-exchange head
    | PushWrite(pos: nat, val: V)      // ticket pos is ours: construct the value
    | PushPublish(pos: nat, val: V)    // store sequence pos + 1
    | PopLoad                          // load tail
    | PopSeq(pos: nat)                 // load slot.sequence
    | PopCas(pos: nat)                 // the sequence was pos + 1: compare-exchange tail
    | PopRead(pos: nat)                // ticket pos is ours: move the value out
    | PopDestroy(pos: nat, val: V)     // destroy the slot's object
    | PopRelease(pos: nat, val: V)     // store sequence pos + capacity, return

  /** The queue, the program counters, and the history that the theorems speak of:
      the value and the thread of every push ticket, the thread of every pop ticket,
      and the value each finished pop returned. */
  datatype State<V> = State(
    cap: nat,
    sq: seq<nat>,
    cells: seq<Option<V>>,
    head: nat,
    tail: nat,
    pc: map<Tid, Pc<V>>,
    pushed: seq<V>,
    pushBy: seq<Tid>,
    popBy: seq<Tid>,
    returned: map<nat, V>)

  /** The scheduler's choice: which thread runs, what an idle thread starts, and
      whether a compare-exchange that could succeed fails spuriously. */
  datatype Call<V> = CallPush(val: V) | CallPop
  datatype Event<V> = Event(tid: Tid, call: Call<V>, spurious: bool)

  function Slot(cap: nat, ticket: nat): (i: nat)
    requires cap > 0
    ensures i < cap
  {
    ticket % cap
  }

  predicate Shaped<V>(s: State<V>)
  {
    s.cap > 0 && |s.sq| == s.cap && |s.cells| == s.cap
  }

  function Init<V>(cap: nat, threads: set<Tid>): (s: State<V>)
    requires cap > 0
  {
    State(cap, seq(cap, i => i), seq(cap, i => None), 0, 0,
          map t | t in threads :: Idle, [], [], [], map[])
  }

  function Goto<V>(s: State<V>, t: Tid, pc: Pc<V>): (s': State<V>)
  {
    s.(pc := s.pc[t := pc])
  }

  function Step<V>(s: State<V>, e: Event<V>): (s': State<V>)
    requires Shaped(s)
    ensures Shaped(s')
  {
    if e.tid !in s.pc then s else
    match s.pc[e.tid]
    case Idle =>
      Goto(s, e.tid, match e.call case CallPush(v) => PushLoad(v) case CallPop => PopLoad)
    case PushLoad(v) =>
      Goto(s, e.tid, PushSeq(s.head, v))
    case PushSeq(pos, v) =>
      var diff := s.sq[Slot(s.cap, pos)] - pos;
      Goto(s, e.tid, if diff == 0 then PushCas(pos, v) else if diff < 0 then Idle else PushLoad(v))
    case PushCas(pos, v) =>
      if s.head == pos && !e.spurious then
        Goto(s, e.tid, PushWrite(pos, v))
          .(head := pos + 1, pushed := s.pushed + [v], pushBy := s.pushBy + [e.tid])
      else
        Goto(s, e.tid, PushSeq(s.head, v))
    case PushWrite(pos, v) =>
      Goto(s, e.tid, PushPublish(pos, v)).(cells := s.cells[Slot(s.cap, pos) := Some(v)])
    case PushPublish(pos, v) =>
      Goto(s, e.tid, Idle).(sq := s.sq[Slot(s.cap, pos) := pos + 1])
    case PopLoad =>
      Goto(s, e.tid, PopSeq(s.tail))
    case PopSeq(pos) =>
      var diff := s.sq[Slot(s.cap, pos)] - (pos + 1);
      Goto(s, e.tid, if diff == 0 then PopCas(pos) else if diff < 0 then Idle else PopLoad)
    case PopCas(pos) =>
      if s.tail == pos && !e.spurious then
        Goto(s, e.tid, PopRead(pos)).(tail := pos + 1, popBy := s.popBy + [e.tid])
      else
        Goto(s, e.tid, PopSeq(s.tail))
    case PopRead(pos) =>
      (match s.cells[Slot(s.cap, pos)]
       case Some(v) => Goto(s, e.tid, PopDestroy(pos, v))
       case None => s)   // reading an object that does not exist: shown unreachable
    case PopDestroy(pos, v) =>
      Goto(s, e.tid, PopRelease(pos, v)).(cells := s.cells[Slot(s.cap, pos) := None])
    case PopRelease(pos, v) =>
      Goto(s, e.tid, Idle)
        .(sq := s.sq[Slot(s.cap, pos) := pos + s.cap], returned := s.returned[pos := v])
  }

  function Run<V>(s: State<V>, events: seq<Event<V>>): (s': State<V>)
    requires Shaped(s)
    ensures Shaped(s')
  {
    if events == [] then s
    else Step(Run(s, events[..|events| - 1]), events[|events| - 1])
  }

  // ---- Slots ----

  /** Two tickets less than a capacity apart use different slots. */
  lemma SlotsDistinct(cap: nat, a: nat, b: nat)
    requires cap > 0 && a < b < a + cap
    ensures Slot(cap, a) != Slot(cap, b)
  {
    if a % cap == b % cap {
      Bits.MulDistributes(cap, b / cap, a / cap);
      Bits.MulAtLeast(cap, b / cap - a / cap);
    }
  }

  lemma SlotSmall(cap: nat, t: nat)
    requires t < cap
    ensures Slot(cap, t) == t
  {
    Bits.ModUnique(t, cap, 0, t);
  }

  lemma SlotPeriodic(cap: nat, a: nat)
    requires cap > 0
    ensures Slot(cap, a + cap) == Slot(cap, a)
  {
    assert cap * (a / cap + 1) == cap * (a / cap) + cap;
    Bits.ModUnique(a + cap, cap, a / cap + 1, a % cap);
  }

  // ---- The invariant ----

  predicate Pushing<V>(pc: Pc<V>, t: nat)
  {
    (pc.PushWrite? || pc.PushPublish?) && pc.pos == t
  }

  predicate Popping<V>(pc: Pc<V>, t: nat)
  {
    (pc.PopRead? || pc.PopDestroy? || pc.PopRelease?) && pc.pos == t
  }

  /** Ticket t has been pushed completely and not yet released by a pop. */
  predicate Published<V>(s: State<V>, t: nat)
    requires Shaped(s)
  {
    t < s.head && s.sq[Slot(s.cap, t)] == t + 1
  }

  ghost predicate CountersOk<V>(s: State<V>)
  {
    && Shaped(s) && s.cap >= 2
    && s.tail <= s.head <= s.tail + s.cap
    && |s.pushed| == |s.pushBy| == s.head
    && |s.popBy| == s.tail
  }

  /** Each slot serves exactly one ticket of the window [tail, tail + capacity). */
  ghost predicate TicketOk<V>(s: State<V>, t: nat)
    requires CountersOk(s)
  {
    var q, c := s.sq[Slot(s.cap, t)], s.cells[Slot(s.cap, t)];
    if t < s.head then
      || (q == t + 1 && c == Some(s.pushed[t]))
      || (q == t && s.pushBy[t] in s.pc && Pushing(s.pc[s.pushBy[t]], t))
    else
      || q == t
      || (q + s.cap == t + 1 && 1 <= q <= s.tail
          && s.popBy[q - 1] in s.pc && Popping(s.pc[s.popBy[q - 1]], q - 1))
  }

  ghost predicate ThreadOk<V>(s: State<V>, tid: Tid)
    requires CountersOk(s) && tid in s.pc
  {
    match s.pc[tid]
    case Idle => true
    case PushLoad(_) => true
    case PopLoad => true
    case PushSeq(pos, _) => pos <= s.head
    case PushCas(pos, _) => pos <= s.head && s.sq[Slot(s.cap, pos)] >= pos
    case PushWrite(pos, v) =>
      && s.tail <= pos < s.head && s.pushBy[pos] == tid
      && s.sq[Slot(s.cap, pos)] == pos && s.pushed[pos] == v
    case PushPublish(pos, v) =>
      && s.tail <= pos < s.head && s.pushBy[pos] == tid
      && s.sq[Slot(s.cap, pos)] == pos && s.pushed[pos] == v
      && s.cells[Slot(s.cap, pos)] == Some(v)
    case PopSeq(pos) => pos <= s.tail
    case PopCas(pos) => pos <= s.tail && s.sq[Slot(s.cap, pos)] >= pos + 1
    case PopRead(pos) =>
      && PopOwner(s, tid, pos) && s.cells[Slot(s.cap, pos)] == Some(s.pushed[pos])
    case PopDestroy(pos, v) => PopOwner(s, tid, pos) && v == s.pushed[pos]
    case PopRelease(pos, v) => PopOwner(s, tid, pos) && v == s.pushed[pos]
  }

  ghost predicate PopOwner<V>(s: State<V>, tid: Tid, pos: nat)
    requires CountersOk(s)
  {
    && pos < s.tail && s.head <= pos + s.cap && s.popBy[pos] == tid
    && s.sq[Slot(s.cap, pos)] == pos + 1 && pos !in s.returned
  }

  /** Every claimed pop ticket has returned its own value, or its pop is still running. */
  ghost predicate ReturnOk<V>(s: State<V>, t: nat)
    requires CountersOk(s)
  {
    if t in s.returned then t < s.tail && s.returned[t] == s.pushed[t]
    else t < s.tail ==> s.popBy[t] in s.pc && Popping(s.pc[s.popBy[t]], t)
  }

  ghost predicate Inv<V(!new)>(s: State<V>)
  {
    && CountersOk(s)
    && (forall t: nat :: s.tail <= t < s.tail + s.cap ==> TicketOk(s, t))
    && (forall tid :: tid in s.pc ==> ThreadOk(s, tid))
    && (forall t: nat :: ReturnOk(s, t))
  }

  lemma InitInv<V(!new)>(cap: nat, threads: set<Tid>)
    requires cap >= 2
    ensures Inv(Init<V>(cap, threads))
  {
    var s := Init<V>(cap, threads);
    forall t: nat | t < cap ensures TicketOk(s, t) { SlotSmall(cap, t); }
    assert forall t: nat :: ReturnOk(s, t);
  }

  /** Different tickets of one window use different slots. */
  lemma WindowSlots<V>(s: State<V>, pos: nat)
    requires CountersOk(s) && s.tail <= pos < s.tail + s.cap
    ensures forall t: nat :: s.tail <= t < s.tail + s.cap && t != pos ==> Slot(s.cap, t) != Slot(s.cap, pos)
  {
    forall t: nat | s.tail <= t < s.tail + s.cap && t != pos
      ensures Slot(s.cap, t) != Slot(s.cap, pos)
    {
      if t < pos { SlotsDistinct(s.cap, t, pos); } else { SlotsDistinct(s.cap, pos, t); }
    }
  }

  predicate OwnsTicket<V>(pc: Pc<V>)
  {
    pc.PushWrite? || pc.PushPublish? || pc.PopRead? || pc.PopDestroy? || pc.PopRelease?
  }

  /** No slot is accessed by two threads that hold tickets. */
  lemma OwnersDisjoint<V(!new)>(s: State<V>, a: Tid, b: Tid)
    requires Inv(s) && a in s.pc && b in s.pc && a != b
    requires OwnsTicket(s.pc[a]) && OwnsTicket(s.pc[b])
    ensures Slot(s.cap, s.pc[a].pos) != Slot(s.cap, s.pc[b].pos)
  {
    assert ThreadOk(s, a) && ThreadOk(s, b);
    var p, q := s.pc[a].pos, s.pc[b].pos;
    if p + 1 == q { SlotsDistinct(s.cap, p, q); }
    if q + 1 == p { SlotsDistinct(s.cap, q, p); }
  }

  // ---- Every step keeps the invariant ----

  lemma LocalStepKeeps<V(!new)>(s: State<V>, tid: Tid, pc: Pc<V>)
    requires Inv(s) && tid in s.pc && !OwnsTicket(s.pc[tid])
    requires ThreadOk(Goto(s, tid, pc), tid)
    ensures Inv(Goto(s, tid, pc))
  {
    var s' := Goto(s, tid, pc);
    forall t: nat | s.tail <= t < s.tail + s.cap ensures TicketOk(s', t) { assert TicketOk(s, t); }
    forall u | u in s'.pc ensures ThreadOk(s', u) { assert u != tid ==> ThreadOk(s, u); }
    forall t: nat ensures ReturnOk(s', t) { assert ReturnOk(s, t); }
  }

  /** When a push claims ticket head, the queue holds fewer than capacity tickets
      and the slot is free for it. */
  lemma PushClaimEnabled<V(!new)>(s: State<V>, tid: Tid)
    requires Inv(s) && tid in s.pc && s.pc[tid].PushCas? && s.head == s.pc[tid].pos
    ensures s.head < s.tail + s.cap && s.sq[Slot(s.cap, s.head)] == s.head
  {
    assert ThreadOk(s, tid) && TicketOk(s, s.tail);
    SlotPeriodic(s.cap, s.tail);
    assert s.head < s.tail + s.cap ==> TicketOk(s, s.head);
  }

  /** When a pop claims ticket tail, that ticket is published. */
  lemma PopClaimEnabled<V(!new)>(s: State<V>, tid: Tid)
    requires Inv(s) && tid in s.pc && s.pc[tid].PopCas? && s.tail == s.pc[tid].pos
    ensures Published(s, s.tail) && s.cells[Slot(s.cap, s.tail)] == Some(s.pushed[s.tail])
  {
    assert ThreadOk(s, tid) && TicketOk(s, s.tail);
  }

  lemma PushClaimThreads<V(!new)>(s: State<V>, e: Event<V>, u: Tid)
    requires Inv(s) && e.tid in s.pc && s.pc[e.tid].PushCas? && s.head == s.pc[e.tid].pos && !e.spurious && u in s.pc
    ensures CountersOk(Step(s, e)) && ThreadOk(Step(s, e), u)
  {
    PushClaimEnabled(s, e.tid);
    assert ThreadOk(s, u);
    if u != e.tid && OwnsTicket(s.pc[u]) && s.head == s.pc[u].pos + s.cap { SlotPeriodic(s.cap, s.pc[u].pos); }
  }

  lemma PushClaimKeeps<V(!new)>(s: State<V>, e: Event<V>)
    requires Inv(s) && e.tid in s.pc && s.pc[e.tid].PushCas? && s.head == s.pc[e.tid].pos && !e.spurious
    ensures Inv(Step(s, e))
  {
    PushClaimEnabled(s, e.tid);
    var s' := Step(s, e);
    forall t: nat | s.tail <= t < s.tail + s.cap ensures TicketOk(s', t) { assert TicketOk(s, t); }
    forall u | u in s'.pc ensures ThreadOk(s', u) { PushClaimThreads(s, e, u); }
    forall t: nat ensures ReturnOk(s', t) { assert ReturnOk(s, t); }
  }

  lemma PushWriteThreads<V(!new)>(s: State<V>, e: Event<V>, u: Tid)
    requires Inv(s) && e.tid in s.pc && s.pc[e.tid].PushWrite? && u in s.pc
    ensures ThreadOk(Step(s, e), u)
  {
    assert ThreadOk(s, e.tid) && ThreadOk(s, u);
    if u != e.tid && OwnsTicket(s.pc[u]) { OwnersDisjoint(s, u, e.tid); }
  }

  lemma PushWriteKeeps<V(!new)>(s: State<V>, e: Event<V>)
    requires Inv(s) && e.tid in s.pc && s.pc[e.tid].PushWrite?
    ensures Inv(Step(s, e))
  {
    var s', pos := Step(s, e), s.pc[e.tid].pos;
    assert ThreadOk(s, e.tid);
    WindowSlots(s, pos);
    forall t: nat | s.tail <= t < s.tail + s.cap ensures TicketOk(s', t) { assert TicketOk(s, t); }
    forall u | u in s'.pc ensures ThreadOk(s', u) { PushWriteThreads(s, e, u); }
    forall t: nat ensures ReturnOk(s', t) { assert ReturnOk(s, t); }
  }

  lemma PushPublishThreads<V(!new)>(s: State<V>, e: Event<V>, u: Tid)
    requires Inv(s) && e.tid in s.pc && s.pc[e.tid].PushPublish? && u in s.pc
    ensures ThreadOk(Step(s, e), u)
  {
    assert ThreadOk(s, e.tid) && ThreadOk(s, u);
    if u != e.tid && OwnsTicket(s.pc[u]) { OwnersDisjoint(s, u, e.tid); }
  }

  lemma PushPublishKeeps<V(!new)>(s: State<V>, e: Event<V>)
    requires Inv(s) && e.tid in s.pc && s.pc[e.tid].PushPublish?
    ensures Inv(Step(s, e))
  {
    var s', pos := Step(s, e), s.pc[e.tid].pos;
    assert ThreadOk(s, e.tid);
    WindowSlots(s, pos);
    forall t: nat | s.tail <= t < s.tail + s.cap ensures TicketOk(s', t) { assert TicketOk(s, t); }
    forall u | u in s'.pc ensures ThreadOk(s', u) { PushPublishThreads(s, e, u); }
    forall t: nat ensures ReturnOk(s', t) { assert ReturnOk(s, t); }
  }

  lemma PopClaimThreads<V(!new)>(s: State<V>, e: Event<V>, u: Tid)
    requires Inv(s) && e.tid in s.pc && s.pc[e.tid].PopCas? && s.tail == s.pc[e.tid].pos && !e.spurious && u in s.pc
    ensures CountersOk(Step(s, e)) && ThreadOk(Step(s, e), u)
  {
    PopClaimEnabled(s, e.tid);
    SlotPeriodic(s.cap, s.tail);
    assert ReturnOk(s, s.tail) && ThreadOk(s, u);
  }

  lemma PopClaimKeeps<V(!new)>(s: State<V>, e: Event<V>)
    requires Inv(s) && e.tid in s.pc && s.pc[e.tid].PopCas? && s.tail == s.pc[e.tid].pos && !e.spurious
    ensures Inv(Step(s, e))
  {
    PopClaimEnabled(s, e.tid);
    var s' := Step(s, e);
    SlotPeriodic(s.cap, s.tail);
    assert ReturnOk(s, s.tail);
    forall t: nat | s'.tail <= t < s'.tail + s.cap ensures TicketOk(s', t) {
      if t < s.tail + s.cap { assert TicketOk(s, t); }
    }
    forall u | u in s'.pc ensures ThreadOk(s', u) { PopClaimThreads(s, e, u); }
    forall t: nat ensures ReturnOk(s', t) { assert ReturnOk(s, t); }
  }

  lemma PopReadThreads<V(!new)>(s: State<V>, e: Event<V>, u: Tid)
    requires Inv(s) && e.tid in s.pc && s.pc[e.tid].PopRead? && u in s.pc
    ensures ThreadOk(Step(s, e), u)
  {
    assert ThreadOk(s, e.tid) && ThreadOk(s, u);
  }

  lemma PopReadKeeps<V(!new)>(s: State<V>, e: Event<V>)
    requires Inv(s) && e.tid in s.pc && s.pc[e.tid].PopRead?
    ensures Inv(Step(s, e))
  {
    var s' := Step(s, e);
    assert ThreadOk(s, e.tid);
    forall t: nat | s.tail <= t < s.tail + s.cap ensures TicketOk(s', t) { assert TicketOk(s, t); }
    forall u | u in s'.pc ensures ThreadOk(s', u) { PopReadThreads(s, e, u); }
    forall t: nat ensures ReturnOk(s', t) { assert ReturnOk(s, t); }
  }

  lemma PopDestroyThreads<V(!new)>(s: State<V>, e: Event<V>, u: Tid)
    requires Inv(s) && e.tid in s.pc && s.pc[e.tid].PopDestroy? && u in s.pc
    ensures ThreadOk(Step(s, e), u)
  {
    assert ThreadOk(s, e.tid) && ThreadOk(s, u);
    if u != e.tid && OwnsTicket(s.pc[u]) { OwnersDisjoint(s, u, e.tid); }
  }

  lemma PopDestroyKeeps<V(!new)>(s: State<V>, e: Event<V>)
    requires Inv(s) && e.tid in s.pc && s.pc[e.tid].PopDestroy?
    ensures Inv(Step(s, e))
  {
    var s', pos := Step(s, e), s.pc[e.tid].pos;
    assert ThreadOk(s, e.tid);
    SlotPeriodic(s.cap, pos);
    WindowSlots(s, pos + s.cap);
    forall t: nat | s.tail <= t < s.tail + s.cap ensures TicketOk(s', t) { assert TicketOk(s, t); }
    forall u | u in s'.pc ensures ThreadOk(s', u) { PopDestroyThreads(s, e, u); }
    forall t: nat ensures ReturnOk(s', t) { assert ReturnOk(s, t); }
  }

  lemma PopReleaseThreads<V(!new)>(s: State<V>, e: Event<V>, u: Tid)
    requires Inv(s) && e.tid in s.pc && s.pc[e.tid].PopRelease? && u in s.pc
    ensures ThreadOk(Step(s, e), u)
  {
    assert ThreadOk(s, e.tid) && ThreadOk(s, u);
    if u != e.tid && OwnsTicket(s.pc[u]) { OwnersDisjoint(s, u, e.tid); }
  }

  lemma PopReleaseTickets<V(!new)>(s: State<V>, e: Event<V>, t: nat)
    requires Inv(s) && e.tid in s.pc && s.pc[e.tid].PopRelease? && s.tail <= t < s.tail + s.cap
    ensures TicketOk(Step(s, e), t)
  {
    var pos := s.pc[e.tid].pos;
    assert ThreadOk(s, e.tid) && TicketOk(s, t);
    SlotPeriodic(s.cap, pos);
    if t < pos + s.cap {
      SlotsDistinct(s.cap, t, pos + s.cap);
    } else if t > pos + s.cap {
      SlotsDistinct(s.cap, pos + s.cap, t);
    }
  }

  lemma PopReleaseKeeps<V(!new)>(s: State<V>, e: Event<V>)
    requires Inv(s) && e.tid in s.pc && s.pc[e.tid].PopRelease?
    ensures Inv(Step(s, e))
  {
    var s', pos := Step(s, e), s.pc[e.tid].pos;
    assert ThreadOk(s, e.tid);
    forall t: nat | s.tail <= t < s.tail + s.cap ensures TicketOk(s', t) { PopReleaseTickets(s, e, t); }
    forall u | u in s'.pc ensures ThreadOk(s', u) { PopReleaseThreads(s, e, u); }
    forall t: nat ensures ReturnOk(s', t) { assert ReturnOk(s, t); }
  }

  /** Steps that change only the thread's own position. */
  predicate Local<V>(s: State<V>, e: Event<V>)
    requires e.tid in s.pc
  {
    match s.pc[e.tid]
    case PushCas(pos, _) => s.head != pos || e.spurious
    case PopCas(pos) => s.tail != pos || e.spurious
    case pc => !OwnsTicket(pc)
  }

  lemma LocalKeeps<V(!new)>(s: State<V>, e: Event<V>)
    requires Inv(s) && e.tid in s.pc && Local(s, e)
    ensures Inv(Step(s, e))
  {
    assert ThreadOk(s, e.tid);
    LocalStepKeeps(s, e.tid, Step(s, e).pc[e.tid]);
  }

  lemma StepKeepsInv<V(!new)>(s: State<V>, e: Event<V>)
    requires Inv(s)
    ensures Inv(Step(s, e))
  {
    if e.tid in s.pc {
      if Local(s, e) { LocalKeeps(s, e); return; }
      match s.pc[e.tid]
      case PushCas(_, _) => PushClaimKeeps(s, e);
      case PopCas(_) => PopClaimKeeps(s, e);
      case PushWrite(_, _) => PushWriteKeeps(s, e);
      case PushPublish(_, _) => PushPublishKeeps(s, e);
      case PopRead(_) => PopReadKeeps(s, e);
      case PopDestroy(_, _) => PopDestroyKeeps(s, e);
      case PopRelease(_, _) => PopReleaseKeeps(s, e);
    }
  }

  /** The invariant holds in every state of every run, for any number of threads. */
  lemma {:induction false} RunKeepsInv<V(!new)>(s: State<V>, events: seq<Event<V>>)
    requires Inv(s)
    ensures Inv(Run(s, events))
  {
    if events == [] {
    } else {
      RunKeepsInv(s, events[..|events| - 1]);
      StepKeepsInv(Run(s, events[..|events| - 1]), events[|events| - 1]);
    }
  }

  // ---- What callers see ----

  /** The abstract queue: the values whose tickets are claimed by a push and by no pop. */
  function Queue<V>(s: State<V>): (q: seq<V>)
    requires s.tail <= s.head == |s.pushed|
  {
    s.pushed[s.tail..]
  }

  /** A bounded FIFO: nothing happens, a value joins at the back while there is room,
      or the front value leaves. */
  ghost predicate FifoStep<V(!new)>(cap: nat, q: seq<V>, q': seq<V>)
  {
    || q' == q
    || (|q| < cap && exists v :: q' == q + [v])
    || (q != [] && q' == q[1..])
  }

  lemma StepRefinesFifo<V(!new)>(s: State<V>, e: Event<V>)
    requires Inv(s)
    ensures Inv(Step(s, e))
    ensures FifoStep(s.cap, Queue(s), Queue(Step(s, e)))
    ensures |Queue(s)| <= s.cap
  {
    StepKeepsInv(s, e);
    var s' := Step(s, e);
    if e.tid in s.pc && s.pc[e.tid].PushCas? && s.head == s.pc[e.tid].pos && !e.spurious {
      PushClaimEnabled(s, e.tid);
      assert Queue(s') == Queue(s) + [s.pc[e.tid].val];
    } else if e.tid in s.pc && s.pc[e.tid].PopCas? && s.tail == s.pc[e.tid].pos && !e.spurious {
      PopClaimEnabled(s, e.tid);
      assert Queue(s') == Queue(s)[1..];
    }
  }

  /** The occupancy is within the capacity, the pop holding ticket t returns exactly the value
      that was pushed with ticket t, and every claimed pop ticket either has returned or belongs
      to the one thread that is still inside its pop. */
  ghost predicate DeliversInOrder<V(!new)>(s: State<V>)
  {
    && s.tail <= s.head <= s.tail + s.cap
    && |s.pushed| == s.head && |s.popBy| == s.tail
    && (forall t :: t in s.returned ==> t < s.tail && s.returned[t] == s.pushed[t])
    && (forall t: nat :: t < s.tail && t !in s.returned ==>
          s.popBy[t] in s.pc && Popping(s.pc[s.popBy[t]], t))
    && (forall tid :: tid in s.pc && (s.pc[tid].PopRead? || s.pc[tid].PopDestroy? || s.pc[tid].PopRelease?) ==>
          var t := s.pc[tid].pos; t < s.tail && s.popBy[t] == tid && t !in s.returned)
  }

  lemma InvDelivers<V(!new)>(s: State<V>)
    requires Inv(s)
    ensures DeliversInOrder(s)
  {
    forall t | t in s.returned ensures t < s.tail && s.returned[t] == s.pushed[t] { assert ReturnOk(s, t); }
    forall t: nat | t < s.tail && t !in s.returned
      ensures s.popBy[t] in s.pc && Popping(s.pc[s.popBy[t]], t)
    { assert ReturnOk(s, t); }
    forall tid | tid in s.pc ensures ThreadOk(s, tid) {}
  }

  /** Every run from an empty queue of capacity at least 2 delivers in order. */
  lemma EveryRunIsFifo<V(!new)>(cap: nat, threads: set<Tid>, events: seq<Event<V>>)
    requires cap >= 2
    ensures DeliversInOrder(Run(Init<V>(cap, threads), events))
    ensures Run(Init<V>(cap, threads), events).cap == cap
  {
    InitInv<V>(cap, threads);
    RunKeepsInv(Init<V>(cap, threads), events);
    InvDelivers(Run(Init<V>(cap, threads), events));
    CapConstant(Init<V>(cap, threads), events);
  }

  /** Every run refines a bounded FIFO, event by event. */
  lemma EveryRunRefinesFifo<V(!new)>(cap: nat, threads: set<Tid>, events: seq<Event<V>>, e: Event<V>)
    requires cap >= 2
    ensures var s, s' := Run(Init<V>(cap, threads), events), Run(Init<V>(cap, threads), events + [e]);
      s.tail <= s.head == |s.pushed| && s'.tail <= s'.head == |s'.pushed| && FifoStep(cap, Queue(s), Queue(s'))
  {
    var s := Run(Init<V>(cap, threads), events);
    InitInv<V>(cap, threads);
    RunKeepsInv(Init<V>(cap, threads), events);
    CapConstant(Init<V>(cap, threads), events);
    StepRefinesFifo(s, e);
    assert (events + [e])[..|events|] == events;
    assert Run(Init<V>(cap, threads), events + [e]) == Step(s, e);
  }

  lemma {:induction false} CapConstant<V>(s: State<V>, events: seq<Event<V>>)
    requires Shaped(s)
    ensures Run(s, events).cap == s.cap
  {
    if events == [] {
    } else {
      CapConstant(s, events[..|events| - 1]);
    }
  }

  /** In every reachable state no slot is written, read or destroyed by two threads at once. */
  lemma EveryRunIsRaceFree<V(!new)>(cap: nat, threads: set<Tid>, events: seq<Event<V>>, a: Tid, b: Tid)
    requires cap >= 2
    ensures var s := Run(Init<V>(cap, threads), events);
      Shaped(s) && (a != b && a in s.pc && b in s.pc && OwnsTicket(s.pc[a]) && OwnsTicket(s.pc[b])
        ==> Slot(s.cap, s.pc[a].pos) != Slot(s.cap, s.pc[b].pos))
  {
    InitInv<V>(cap, threads);
    RunKeepsInv(Init<V>(cap, threads), events);
    var s := Run(Init<V>(cap, threads), events);
    if a != b && a in s.pc && b in s.pc && OwnsTicket(s.pc[a]) && OwnsTicket(s.pc[b]) {
      OwnersDisjoint(s, a, b);
    }
  }

  /** A pop gives up (nullopt) exactly when the front ticket is not published at the moment
      it reads the sequence: the queue is empty, or the push of the front ticket is under way. */
  lemma PopGivesUpExactlyWhenFrontUnpublished<V(!new)>(s: State<V>, e: Event<V>)
    requires Inv(s) && e.tid in s.pc && s.pc[e.tid].PopSeq?
    ensures Step(s, e).pc[e.tid].Idle? <==> s.pc[e.tid].pos == s.tail && !Published(s, s.tail)
    ensures !Published(s, s.tail) ==>
      || s.head == s.tail
      || (s.pushBy[s.tail] in s.pc && Pushing(s.pc[s.pushBy[s.tail]], s.tail))
  {
    var pos := s.pc[e.tid].pos;
    assert ThreadOk(s, e.tid) && TicketOk(s, s.tail);
    if pos < s.tail { OldTicketSequence(s, pos); }
  }

  /** The slot of a ticket already claimed by a pop carries at least its published number. */
  lemma OldTicketSequence<V(!new)>(s: State<V>, pos: nat)
    requires Inv(s) && pos < s.tail
    ensures s.sq[Slot(s.cap, pos)] >= pos + 1
    decreases s.tail - pos
  {
    SlotPeriodic(s.cap, pos);
    if pos + s.cap < s.tail {
      OldTicketSequence(s, pos + s.cap);
    } else {
      assert TicketOk(s, pos + s.cap);
    }
  }

  /** A push gives up ("queue is full") exactly when its ticket is the next one and the slot's
      previous value has not been released: the queue is full, or the pop of that value is
      under way. */
  lemma PushGivesUpExactlyWhenSlotUnreleased<V(!new)>(s: State<V>, e: Event<V>)
    requires Inv(s) && e.tid in s.pc && s.pc[e.tid].PushSeq?
    ensures Step(s, e).pc[e.tid].Idle? <==>
      s.pc[e.tid].pos == s.head && s.sq[Slot(s.cap, s.head)] != s.head
    ensures s.sq[Slot(s.cap, s.head)] != s.head ==>
      || |Queue(s)| == s.cap
      || (s.cap <= s.head < s.tail + s.cap && s.popBy[s.head - s.cap] in s.pc
          && Popping(s.pc[s.popBy[s.head - s.cap]], s.head - s.cap))
  {
    var pos := s.pc[e.tid].pos;
    assert ThreadOk(s, e.tid) && TicketOk(s, s.tail);
    SlotPeriodic(s.cap, s.tail);
    if pos < s.tail {
      OldTicketSequence(s, pos);
    } else if pos < s.head {
      assert TicketOk(s, pos);
    }
    if s.head < s.tail + s.cap { assert TicketOk(s, s.head); }
  }

  // ---- Calls and their answers ----

  /** The call a thread is in: the one it started at its last event while idle. */
  function LastCall<V>(cap: nat, threads: set<Tid>, events: seq<Event<V>>, tid: Tid): (c: Option<Call<V>>)
    requires cap > 0
  {
    if events == [] then None else
    var before, e := events[..|events| - 1], events[|events| - 1];
    var s := Run(Init<V>(cap, threads), before);
    if e.tid == tid && tid in s.pc && s.pc[tid].Idle? then Some(e.call) else LastCall(cap, threads, before, tid)
  }

  predicate InPop<V>(pc: Pc<V>)
  {
    pc.PopLoad? || pc.PopSeq? || pc.PopCas? || pc.PopRead? || pc.PopDestroy? || pc.PopRelease?
  }

  /** Inside push, with this value still to be stored or published. */
  ghost predicate InPush<V>(pc: Pc<V>, v: V)
  {
    (pc.PushLoad? || pc.PushSeq? || pc.PushCas? || pc.PushWrite? || pc.PushPublish?) && pc.val == v
  }

  /** A thread at work is working on its call. */
  ghost predicate OnCall<V>(pc: Pc<V>, c: Option<Call<V>>)
  {
    pc.Idle? || (c.Some? && match c.value case CallPush(v) => InPush(pc, v) case CallPop => InPop(pc))
  }

  lemma PushStepOnCall<V>(s: State<V>, e: Event<V>, v: V)
    requires Shaped(s) && e.tid in s.pc && InPush(s.pc[e.tid], v)
    ensures e.tid in Step(s, e).pc && (Step(s, e).pc[e.tid].Idle? || InPush(Step(s, e).pc[e.tid], v))
  {
  }

  lemma PopStepOnCall<V>(s: State<V>, e: Event<V>)
    requires Shaped(s) && e.tid in s.pc && InPop(s.pc[e.tid])
    ensures e.tid in Step(s, e).pc && (Step(s, e).pc[e.tid].Idle? || InPop(Step(s, e).pc[e.tid]))
  {
  }

  lemma StepOnCall<V>(s: State<V>, e: Event<V>, c: Option<Call<V>>)
    requires Shaped(s) && e.tid in s.pc && OnCall(s.pc[e.tid], c)
    ensures e.tid in Step(s, e).pc
    ensures OnCall(Step(s, e).pc[e.tid], if s.pc[e.tid].Idle? then Some(e.call) else c)
  {
    if !s.pc[e.tid].Idle? {
      match c.value
      case CallPush(v) => PushStepOnCall(s, e, v);
      case CallPop => PopStepOnCall(s, e);
    }
  }

  /** In every run each thread is in the code of the call it made, with the value it was given. */
  lemma {:induction false} EveryThreadIsOnItsCall<V>(cap: nat, threads: set<Tid>, events: seq<Event<V>>, tid: Tid)
    requires cap > 0
    ensures var s := Run(Init<V>(cap, threads), events);
      tid in s.pc ==> OnCall(s.pc[tid], LastCall(cap, threads, events, tid))
  {
    if events == [] {
    } else {
      var before, e := events[..|events| - 1], events[|events| - 1];
      var s := Run(Init<V>(cap, threads), before);
      EveryThreadIsOnItsCall(cap, threads, before, tid);
      if e.tid == tid && tid in s.pc { StepOnCall(s, e, LastCall(cap, threads, before, tid)); } else { OthersStay(s, e, tid); }
    }
  }

  /** A step changes its own thread's position alone. */
  lemma OwnPosition<V>(s: State<V>, e: Event<V>)
    requires Shaped(s)
    ensures e.tid !in s.pc ==> Step(s, e) == s
    ensures e.tid in s.pc ==> e.tid in Step(s, e).pc && Step(s, e).pc == s.pc[e.tid := Step(s, e).pc[e.tid]]
  {
    if e.tid in s.pc && s.pc[e.tid].PopRead? && s.cells[Slot(s.cap, s.pc[e.tid].pos)].None? {
      assert s.pc[e.tid := s.pc[e.tid]] == s.pc;
    }
  }

  lemma OthersStay<V>(s: State<V>, e: Event<V>, tid: Tid)
    requires Shaped(s) && (e.tid != tid || tid !in s.pc)
    ensures tid in Step(s, e).pc <==> tid in s.pc
    ensures tid in s.pc ==> Step(s, e).pc[tid] == s.pc[tid]
  {
    OwnPosition(s, e);
  }

  /** A thread that leaves a pop without a value found the front ticket unpublished. */
  lemma PopEndsEmptyHanded<V(!new)>(s: State<V>, e: Event<V>)
    requires Inv(s) && e.tid in s.pc && (s.pc[e.tid].PopLoad? || s.pc[e.tid].PopSeq? || s.pc[e.tid].PopCas?)
    requires Step(s, e).pc[e.tid].Idle?
    ensures !Published(s, s.tail)
  {
    assert s.pc[e.tid].PopSeq?;
    PopGivesUpExactlyWhenFrontUnpublished(s, e);
  }

  /** A thread that leaves a push before its claim found the slot of the next ticket unreleased. */
  lemma PushEndsEmptyHanded<V(!new)>(s: State<V>, e: Event<V>)
    requires Inv(s) && e.tid in s.pc && (s.pc[e.tid].PushLoad? || s.pc[e.tid].PushSeq? || s.pc[e.tid].PushCas?)
    requires Step(s, e).pc[e.tid].Idle?
    ensures s.sq[Slot(s.cap, s.head)] != s.head
  {
    assert s.pc[e.tid].PushSeq?;
    PushGivesUpExactlyWhenSlotUnreleased(s, e);
  }

  /** How a finished pop may have ended: it returns the value of a ticket it claimed, or the front
      ticket was not published. */
  ghost predicate PopAnswered<V(!new)>(s: State<V>, s': State<V>, tid: Tid)
    requires Shaped(s)
  {
    || (exists pos: nat :: pos < |s.popBy| && s.popBy[pos] == tid && pos < |s.pushed|
          && pos !in s.returned && s'.returned == s.returned[pos := s.pushed[pos]])
    || (s'.returned == s.returned && !Published(s, s.tail))
  }

  /** How a finished push of v may have ended: it publishes v under a ticket it claimed, or the slot of
      the next ticket was not released. */
  ghost predicate PushAnswered<V(!new)>(s: State<V>, s': State<V>, tid: Tid, v: V)
    requires Shaped(s)
  {
    || (exists pos: nat :: pos < |s.pushBy| && s.pushBy[pos] == tid && pos < |s.pushed| && s.pushed[pos] == v
          && !Published(s, pos) && s'.sq == s.sq[Slot(s.cap, pos) := pos + 1] && s'.cells == s.cells
          && s.cells[Slot(s.cap, pos)] == Some(v))
    || (s'.sq == s.sq && s'.cells == s.cells && s.sq[Slot(s.cap, s.head)] != s.head)
  }

  lemma PopFinishes<V(!new)>(s: State<V>, e: Event<V>)
    requires Inv(s) && e.tid in s.pc && InPop(s.pc[e.tid]) && Step(s, e).pc[e.tid].Idle?
    ensures PopAnswered(s, Step(s, e), e.tid)
  {
    assert ThreadOk(s, e.tid);
    if s.pc[e.tid].PopRelease? {
      var pos := s.pc[e.tid].pos;
      assert pos < |s.popBy| && s.popBy[pos] == e.tid && Step(s, e).returned == s.returned[pos := s.pushed[pos]];
    } else {
      PopEndsEmptyHanded(s, e);
    }
  }

  lemma PushFinishes<V(!new)>(s: State<V>, e: Event<V>, v: V)
    requires Inv(s) && e.tid in s.pc && InPush(s.pc[e.tid], v) && Step(s, e).pc[e.tid].Idle?
    ensures PushAnswered(s, Step(s, e), e.tid, v)
  {
    assert ThreadOk(s, e.tid);
    if s.pc[e.tid].PushPublish? {
      var pos := s.pc[e.tid].pos;
      assert pos < |s.pushBy| && s.pushBy[pos] == e.tid && s.pushed[pos] == v;
    } else {
      PushEndsEmptyHanded(s, e);
    }
  }

  /** In every run a thread that becomes idle has done what it was called for: a pop returned the value of
      its ticket, and a push published the value it was given; or the pop found the front unpublished,
      or the push found the next slot unreleased. */
  lemma EveryCallIsAnswered<V(!new)>(cap: nat, threads: set<Tid>, events: seq<Event<V>>, e: Event<V>)
    requires cap >= 2
    requires var s := Run(Init<V>(cap, threads), events);
      e.tid in s.pc && !s.pc[e.tid].Idle? && Step(s, e).pc[e.tid].Idle?
    ensures var s := Run(Init<V>(cap, threads), events); var c := LastCall(cap, threads, events, e.tid);
      c.Some? && match c.value
                 case CallPush(v) => PushAnswered(s, Step(s, e), e.tid, v)
                 case CallPop => PopAnswered(s, Step(s, e), e.tid)
  {
    var s := Run(Init<V>(cap, threads), events);
    InitInv<V>(cap, threads);
    RunKeepsInv(Init<V>(cap, threads), events);
    EveryThreadIsOnItsCall(cap, threads, events, e.tid);
    match LastCall(cap, threads, events, e.tid).value
    case CallPush(v) => PushFinishes(s, e, v);
    case CallPop => PopFinishes(s, e);
  }

  /** In every run the value a claim adds to the queue is the one its thread was called with. */
  lemma EveryClaimIsTheCall<V(!new)>(cap: nat, threads: set<Tid>, events: seq<Event<V>>, e: Event<V>)
    requires cap > 0
    requires var s := Run(Init<V>(cap, threads), events); Step(s, e).pushed != s.pushed
    ensures var s := Run(Init<V>(cap, threads), events); var c := LastCall(cap, threads, events, e.tid);
      c.Some? && c.value.CallPush? && Step(s, e).pushed == s.pushed + [c.value.val] && Step(s, e).pushBy == s.pushBy + [e.tid]
  {
    EveryThreadIsOnItsCall(cap, threads, events, e.tid);
  }

  // ---- Capacity 1 ----

  lemma {:induction false} RunAppend<V>(s: State<V>, a: seq<Event<V>>, b: seq<Event<V>>)
    requires Shaped(s)
    ensures Run(s, a + b) == Run(Run(s, a), b)
  {
    if b == [] {
      assert a + b == a;
    } else {
      assert (a + b)[..|a + b| - 1] == a + b[..|b| - 1];
      RunAppend(s, a, b[..|b| - 1]);
    }
  }

  lemma RunThree<V>(s: State<V>, e: Event<V>)
    requires Shaped(s)
    ensures Run(s, [e, e, e]) == Step(Step(Step(s, e), e), e)
  {
    assert [e, e, e][..2] == [e, e] && [e, e][..1] == [e] && [e][..0] == [];
    assert Run(s, [e]) == Step(Run(s, []), e);
    assert Run(s, [e, e]) == Step(Run(s, [e]), e);
  }

  /** The two states differ in program counters and in the history of pushes and pops only. */
  ghost predicate SameRing<V>(s: State<V>, s': State<V>)
  {
    s'.cap == s.cap && s'.sq == s.sq && s'.cells == s.cells && s'.head == s.head && s'.tail == s.tail
    && s'.returned == s.returned
  }

  /** One thread's push, run without interruption: begin, load head, load the sequence,
      compare-exchange, construct, publish. */
  function WholePush<V>(t: Tid, v: V): (es: seq<Event<V>>)
  {
    var e := Event(t, CallPush(v), false);
    [e, e, e] + [e, e, e]
  }

  lemma PushPrepares<V>(s: State<V>, t: Tid, v: V)
    requires Shaped(s) && t in s.pc && s.pc[t].Idle? && s.sq[Slot(s.cap, s.head)] == s.head
    ensures var e := Event(t, CallPush(v), false); var s' := Run(s, [e, e, e]);
      SameRing(s, s') && t in s'.pc && s'.pc[t] == PushCas(s.head, v)
  {
    var e := Event(t, CallPush(v), false);
    RunThree(s, e);
    var s1 := Step(s, e);
    assert SameRing(s, s1) && s1.pc[t] == PushLoad(v);
    var s2 := Step(s1, e);
    assert SameRing(s, s2) && s2.pc[t] == PushSeq(s.head, v);
  }

  /** s' is the ring of s with v appended, the thread being idle again. */
  ghost predicate Appended<V>(s: State<V>, t: Tid, v: V, s': State<V>)
    requires Shaped(s)
  {
    var i := Slot(s.cap, s.head);
    && s'.cap == s.cap && s'.sq == s.sq[i := s.head + 1] && s'.cells == s.cells[i := Some(v)]
    && s'.head == s.head + 1 && s'.tail == s.tail && s'.returned == s.returned
    && t in s'.pc && s'.pc[t].Idle?
  }

  lemma PushCommits<V>(s: State<V>, t: Tid, v: V)
    requires Shaped(s) && t in s.pc && s.pc[t] == PushCas(s.head, v)
    ensures var e := Event(t, CallPush(v), false); Appended(s, t, v, Run(s, [e, e, e]))
  {
    var e := Event(t, CallPush(v), false);
    RunThree(s, e);
    var s1 := Step(s, e);
    assert s1.pc[t] == PushWrite(s.head, v) && s1.sq == s.sq && s1.cells == s.cells && s1.head == s.head + 1;
    var s2 := Step(s1, e);
    assert s2.pc[t] == PushPublish(s.head, v) && s2.sq == s.sq && s2.head == s.head + 1;
  }

  lemma AppendedAfter<V>(s: State<V>, ready: State<V>, t: Tid, v: V, s': State<V>)
    requires Shaped(s) && SameRing(s, ready) && Shaped(ready) && Appended(ready, t, v, s')
    ensures Appended(s, t, v, s')
  {
  }

  /** A push that runs alone on a slot whose sequence equals head appends its value there. */
  lemma WholePushAppends<V>(s: State<V>, t: Tid, v: V)
    requires Shaped(s) && t in s.pc && s.pc[t].Idle? && s.sq[Slot(s.cap, s.head)] == s.head
    ensures Appended(s, t, v, Run(s, WholePush(t, v)))
  {
    var e := Event(t, CallPush(v), false);
    var three := [e, e, e];
    var ready := Run(s, three);
    RunAppend(s, three, three);
    PushPrepares(s, t, v);
    PushCommits(ready, t, v);
    assert WholePush(t, v) == three + three;
    AppendedAfter(s, ready, t, v, Run(ready, three));
  }

  /** With capacity 1 a released slot and a published slot carry the same number, so a second
      push overwrites the first value before it is popped. */
  lemma CapacityOneLosesValues<V>(t: Tid, a: V, b: V)
    ensures var s := Run(Init<V>(1, {t}), WholePush(t, a) + WholePush(t, b));
      s.head - s.tail == 2 && s.returned == map[] && s.cells == [Some(b)]
  {
    var s0 := Init<V>(1, {t});
    WholePushAppends(s0, t, a);
    var s1 := Run(s0, WholePush(t, a));
    WholePushAppends(s1, t, b);
    RunAppend(s0, WholePush(t, a), WholePush(t, b));
  }

  /** The occupancy bound holds for every run exactly when the capacity is at least 2. */
  lemma CapacityTwoIsNeededAndEnough<V(!new)>(cap: nat, v: V)
    requires cap > 0
    ensures cap >= 2 <==>
      (forall threads, events: seq<Event<V>> :: DeliversInOrder(Run(Init<V>(cap, threads), events)))
  {
    if cap >= 2 {
      forall threads, events: seq<Event<V>> ensures DeliversInOrder(Run(Init<V>(cap, threads), events)) {
        EveryRunIsFifo(cap, threads, events);
      }
    } else {
      CapacityOneLosesValues(0, v, v);
      assert !DeliversInOrder(Run(Init<V>(cap, {0}), WholePush(0, v) + WholePush(0, v)));
    }
  }

  /** The source indexes with `pos & (capacity - 1)`; for a power of two that is Slot, so any
      `capacity` consecutive tickets use distinct slots. */
  lemma MaskedSlot(k: nat, a: nat, b: nat)
    ensures Bits.And(a, Bits.Pow2(k) - 1) == Slot(Bits.Pow2(k), a)
    ensures a < b < a + Bits.Pow2(k) ==> Bits.And(a, Bits.Pow2(k) - 1) != Bits.And(b, Bits.Pow2(k) - 1)
  {
    Bits.MaskIsMod(a, k);
    Bits.MaskIsMod(b, k);
    if a < b < a + Bits.Pow2(k) { SlotsDistinct(Bits.Pow2(k), a, b); }
  }
}
