/** The per-receiver send queue with its in-flight flag. Each handler is one step; whether the
    network accepts a send is given to the step. A completion knows its socket only, and finds the
    receiver through the session maps. */
module SendSlot {
  import opened Common

  type Id = string
  type Packet = nat   // a packet's number
  type Socket = int
  const INVALID_SOCKET: Socket := -1

  /** clientQueue; flag says that a packet is in flight. */
  datatype ClientQueue = ClientQueue(queue: seq<Packet>, flag: bool)

  const NEW_QUEUE: ClientQueue := ClientQueue([], false)

  type Queues = map<Id, ClientQueue>

  function QueueOf(qs: Queues, id: Id): (q: ClientQueue)
  {
    if id in qs then qs[id] else NEW_QUEUE
  }

  // ---- Handlers on one queue, and the packet each tries to send ----

  function Enqueued(q: ClientQueue, p: Packet, accepted: bool): (r: (ClientQueue, Option<Packet>))
  {
    var queue := q.queue + [p];
    if q.flag then (ClientQueue(queue, true), None)
    else (ClientQueue(queue, accepted), Some(queue[0]))
  }

  function Drained(q: ClientQueue, accepted: bool): (r: (ClientQueue, Option<Packet>))
  {
    var queue := if q.queue == [] then [] else q.queue[1..];
    if queue == [] then (ClientQueue([], false), None)
    else (ClientQueue(queue, q.flag && accepted), Some(queue[0]))
  }

  function Notified(q: ClientQueue, accepted: bool): (r: (ClientQueue, Option<Packet>))
  {
    if q.queue == [] || q.flag then (q, None)
    else (ClientQueue(q.queue, accepted), Some(q.queue[0]))
  }

  /** ManageOffline: the result of each method is the packet it tried to send. */
  class ManageOffline {
    var queues: Queues

    constructor ()
      ensures queues == map[]
    {
      queues := map[];
    }

    method ManageCompletePacket(p: Packet, recvId: Id, accepted: bool) returns (tried: Option<Packet>)
      modifies this
      ensures var (q, t) := Enqueued(QueueOf(old(queues), recvId), p, accepted);
        queues == old(queues)[recvId := q] && tried == t
    {
      if recvId !in queues { queues := queues[recvId := NEW_QUEUE]; }
      queues := queues[recvId := queues[recvId].(queue := queues[recvId].queue + [p])];
      tried := None;
      if !queues[recvId].flag {
        queues := queues[recvId := queues[recvId].(flag := true)];
        tried := Some(queues[recvId].queue[0]);
        if !accepted { queues := queues[recvId := queues[recvId].(flag := false)]; }
      }
    }

    method DrainNext(recvId: Id, accepted: bool) returns (tried: Option<Packet>)
      modifies this
      ensures recvId !in old(queues) ==> queues == old(queues) && tried == None
      ensures recvId in old(queues) ==>
        var (q, t) := Drained(old(queues)[recvId], accepted);
        queues == old(queues)[recvId := q] && tried == t
    {
      if recvId !in queues { return None; }
      if queues[recvId].queue != [] {
        queues := queues[recvId := queues[recvId].(queue := queues[recvId].queue[1..])];
      }
      if queues[recvId].queue != [] {
        tried := Some(queues[recvId].queue[0]);
        if !accepted { queues := queues[recvId := queues[recvId].(flag := false)]; }
      } else {
        tried := None;
        queues := queues[recvId := queues[recvId].(flag := false)];
      }
    }

    method ClearFlag(recvId: Id)
      modifies this
      ensures recvId !in old(queues) ==> queues == old(queues)
      ensures recvId in old(queues) ==> queues == old(queues)[recvId := old(queues)[recvId].(flag := false)]
    {
      if recvId in queues { queues := queues[recvId := queues[recvId].(flag := false)]; }
    }

    method NotifySend(recId: Id, accepted: bool) returns (tried: Option<Packet>)
      modifies this
      ensures recId !in old(queues) ==> queues == old(queues) && tried == None
      ensures recId in old(queues) ==>
        var (q, t) := Notified(old(queues)[recId], accepted);
        queues == old(queues)[recId := q] && tried == t
    {
      tried := None;
      if recId !in queues { return; }
      if queues[recId].queue != [] {
        if !queues[recId].flag {
          queues := queues[recId := queues[recId].(flag := true)];
          tried := Some(queues[recId].queue[0]);
          if !accepted { queues := queues[recId := queues[recId].(flag := false)]; }
        }
      }
    }
  }

  /** The send-completion branch of the worker thread: the receiver is looked up by the socket. */
  class SendCompletion {
    var socketToUserId: map<Socket, Id>
    const offlineManager: ManageOffline

    constructor (m: ManageOffline)
      ensures offlineManager == m && socketToUserId == map[]
    {
      offlineManager, socketToUserId := m, map[];
    }

    /** All bytes of a queued packet have been sent on the socket. */
    method FullySent(k: Socket, accepted: bool) returns (tried: Option<Packet>)
      modifies offlineManager
      ensures (offlineManager.queues, tried) == DrainedAt(old(offlineManager.queues), IdOf(socketToUserId, k), accepted)
    {
      var recvId := if k in socketToUserId then socketToUserId[k] else "";
      tried := offlineManager.DrainNext(recvId, accepted);
    }

    /** The rest of a partly sent packet could not be posted. */
    method ResendFailed(k: Socket)
      modifies offlineManager
      ensures offlineManager.queues == ClearedAt(old(offlineManager.queues), IdOf(socketToUserId, k))
    {
      var recvId := if k in socketToUserId then socketToUserId[k] else "";
      offlineManager.ClearFlag(recvId);
    }
  }

  /** getUserIdBySocket */
  function IdOf(ids: map<Socket, Id>, k: Socket): (id: Id)
  {
    if k in ids then ids[k] else ""
  }

  function DrainedAt(qs: Queues, id: Id, accepted: bool): (r: (Queues, Option<Packet>))
  {
    if id !in qs then (qs, None) else
    var (q, tried) := Drained(qs[id], accepted);
    (qs[id := q], tried)
  }

  function ClearedAt(qs: Queues, id: Id): (qs': Queues)
  {
    if id in qs then qs[id := qs[id].(flag := false)] else qs
  }

  // ---- The system: queues, sessions and the network ----

  /** A packet on its way over a socket. */
  datatype Send = Send(socket: Socket, packet: Packet)

  /** What happened to the packets for one receiver: those on the network now, all enqueued, all
      whose send completed, and whether the last attempt to send failed. */
  datatype Net = Net(flight: seq<Send>, enqueued: seq<Packet>, completed: seq<Packet>, failed: bool)

  const NEW_NET: Net := Net([], [], [], false)

  /** ids and socks are the two directions of the session maps. */
  datatype State = State(queues: Queues, ids: map<Socket, Id>, socks: map<Id, Socket>, net: map<Id, Net>)

  const INIT: State := State(map[], map[], map[], map[])

  /** A packet for the receiver arrives; a send meant for the receiver completes, or breaks off
      half-way; the receiver's waiting packets are tried after a login; a socket's session comes to
      stand under an id; the session under an id is removed, by a logout or a disconnect. accepted
      says whether the network takes the send the handler tries. */
  datatype Event =
    | Enqueue(id: Id, packet: Packet, accepted: bool)
    | Complete(id: Id, accepted: bool)
    | Break(id: Id)
    | Reconnect(id: Id, accepted: bool)
    | Register(id: Id, socket: Socket)
    | Remove(id: Id)

  function NetOf(s: State, id: Id): (n: Net)
  {
    if id in s.net then s.net[id] else NEW_NET
  }

  /** routePacket: only a registered receiver can be sent to. */
  predicate Routed(s: State, id: Id, accepted: bool)
  {
    accepted && id != "" && id in s.socks
  }

  /** The traffic of a receiver after an attempt on this socket. */
  function Attempted(n: Net, tried: Option<Packet>, accepted: bool, k: Socket): (n': Net)
  {
    match tried
    case None => n
    case Some(p) => if accepted then n.(flight := n.flight + [Send(k, p)], failed := false) else n.(failed := true)
  }

  /** An attempt through the receiver's session. */
  function Routing(s: State, id: Id, r: (ClientQueue, Option<Packet>), n: Net, routed: bool): (s': State)
    requires routed ==> id in s.socks
  {
    var k := if routed then s.socks[id] else INVALID_SOCKET;
    s.(queues := s.queues[id := r.0], net := s.net[id := Attempted(n, r.1, routed, k)])
  }

  function SendDone(n: Net): (n': Net)
    requires n.flight != []
  {
    n.(flight := n.flight[1..], completed := n.completed + [n.flight[0].packet])
  }

  /** A send meant for id completes; the queue of the id its socket stands for moves on. */
  function DoComplete(s: State, id: Id, accepted: bool): (s': State)
    requires NetOf(s, id).flight != []
  {
    var k := NetOf(s, id).flight[0].socket;
    var r, done := IdOf(s.ids, k), s.(net := s.net[id := SendDone(NetOf(s, id))]);
    var (queues, tried) := DrainedAt(s.queues, r, accepted);
    if tried.None? then done.(queues := queues)
    else done.(queues := queues, net := done.net[r := Attempted(NetOf(done, r), tried, accepted, k)])
  }

  function DoBreak(s: State, id: Id): (s': State)
    requires NetOf(s, id).flight != []
  {
    var n := NetOf(s, id);
    s.(queues := ClearedAt(s.queues, IdOf(s.ids, n.flight[0].socket)),
       net := s.net[id := n.(flight := n.flight[1..], failed := true)])
  }

  function Unregister(s: State, id: Id): (s': State)
  {
    if id !in s.socks then s else s.(ids := s.ids - {s.socks[id]}, socks := s.socks - {id})
  }

  function Step(s: State, e: Event): (s': State)
  {
    var q, n := QueueOf(s.queues, e.id), NetOf(s, e.id);
    match e
    case Enqueue(id, p, accepted) =>
      var routed := Routed(s, id, accepted);
      Routing(s, id, Enqueued(q, p, routed), n.(enqueued := n.enqueued + [p]), routed)
    case Complete(id, accepted) => if n.flight == [] then s else DoComplete(s, id, accepted)
    case Break(id) => if n.flight == [] then s else DoBreak(s, id)
    case Reconnect(id, accepted) =>
      if id !in s.queues then s else
      var routed := Routed(s, id, accepted);
      Routing(s, id, Notified(q, routed), n, routed)
    case Register(id, k) =>
      if id == "" then s else
      var r := Unregister(Unregister(s, id), IdOf(s.ids, k));
      r.(ids := r.ids[k := id], socks := r.socks[id := k])
    case Remove(id) => Unregister(s, id)
  }

  function Run(s: State, events: seq<Event>): (s': State)
  {
    if events == [] then s else Step(Run(s, events[..|events| - 1]), events[|events| - 1])
  }

  // ---- The send slot ----

  /** The flag is up exactly when one packet is on the network, and that is the front of the queue;
      what completed followed by what is queued is what was enqueued; a queue that waits with the
      flag down had its last attempt fail. */
  predicate SlotOk(q: ClientQueue, n: Net)
  {
    && (q.flag ==> q.queue != [] && |n.flight| == 1 && n.flight[0].packet == q.queue[0])
    && (!q.flag ==> n.flight == [])
    && n.completed + q.queue == n.enqueued
    && (q.queue != [] && !q.flag ==> n.failed)
  }

  predicate SlotAt(s: State, id: Id)
  {
    SlotOk(QueueOf(s.queues, id), NetOf(s, id))
  }

  ghost predicate AllSlots(s: State)
  {
    forall id :: SlotAt(s, id)
  }

  /** The socket of the send that the event settles stands for the receiver of that send. */
  predicate Resolves(s: State, e: Event)
  {
    (e.Complete? || e.Break?) && NetOf(s, e.id).flight != [] ==>
      IdOf(s.ids, NetOf(s, e.id).flight[0].socket) == e.id
  }

  lemma EnqueueKeeps(q: ClientQueue, n: Net, p: Packet, routed: bool, k: Socket)
    requires SlotOk(q, n)
    ensures var (q', t) := Enqueued(q, p, routed);
      SlotOk(q', Attempted(n.(enqueued := n.enqueued + [p]), t, routed, k))
  {
    assert n.completed + (q.queue + [p]) == n.completed + q.queue + [p];
  }

  lemma CompleteKeeps(q: ClientQueue, n: Net, accepted: bool, k: Socket)
    requires SlotOk(q, n) && n.flight != []
    ensures var (q', t) := Drained(q, accepted); SlotOk(q', Attempted(SendDone(n), t, accepted, k))
  {
    assert n.completed + [q.queue[0]] + q.queue[1..] == n.completed + q.queue;
  }

  /** A step leaves every receiver alone but the one it names and the one its socket stands for. */
  lemma StepElsewhere(s: State, e: Event, id: Id)
    requires e.id != id
    requires (e.Complete? || e.Break?) && NetOf(s, e.id).flight != [] ==>
      IdOf(s.ids, NetOf(s, e.id).flight[0].socket) != id
    ensures QueueOf(Step(s, e).queues, id) == QueueOf(s.queues, id) && NetOf(Step(s, e), id) == NetOf(s, id)
  {
  }

  lemma DoCompleteKeeps(s: State, id: Id, accepted: bool)
    requires SlotAt(s, id) && Resolves(s, Complete(id, accepted)) && NetOf(s, id).flight != []
    ensures SlotAt(DoComplete(s, id, accepted), id)
  {
    var q, n := QueueOf(s.queues, id), NetOf(s, id);
    CompleteKeeps(q, n, accepted, n.flight[0].socket);
    assert id in s.queues;
  }

  lemma StepKeeps(s: State, e: Event)
    requires SlotAt(s, e.id) && Resolves(s, e)
    ensures SlotAt(Step(s, e), e.id)
  {
    var q, n := QueueOf(s.queues, e.id), NetOf(s, e.id);
    match e
    case Enqueue(id, p, accepted) =>
      var routed := Routed(s, id, accepted);
      EnqueueKeeps(q, n, p, routed, if routed then s.socks[id] else INVALID_SOCKET);
    case Complete(id, accepted) => if n.flight != [] { DoCompleteKeeps(s, id, accepted); }
    case _ =>
  }

  /** A send that settles over a socket which no longer stands for its receiver leaves the flag up
      with nothing on the network. */
  lemma UnresolvedBreaks(s: State, e: Event)
    requires SlotAt(s, e.id) && !Resolves(s, e)
    ensures Stranded(Step(s, e), e.id)
  {
  }

  /** The flag is up and nothing is on the network that could lower it. */
  predicate Stranded(s: State, id: Id)
  {
    QueueOf(s.queues, id).flag && NetOf(s, id).flight == []
  }

  /** From slots in order, a step leaves all slots in order if and only if the send it settles, if
      any, was made over a socket that still stands for its receiver. */
  lemma StepKeepsExactly(s: State, e: Event)
    requires AllSlots(s)
    ensures AllSlots(Step(s, e)) <==> Resolves(s, e)
  {
    assert SlotAt(s, e.id);
    if Resolves(s, e) {
      forall id ensures SlotAt(Step(s, e), id) {
        if id == e.id { StepKeeps(s, e); } else { StepElsewhere(s, e, id); assert SlotAt(s, id); }
      }
    } else {
      UnresolvedBreaks(s, e);
      assert !SlotAt(Step(s, e), e.id);
    }
  }

  /** Event j settles its send over a socket that still stands for the receiver. */
  predicate ResolvesAt(events: seq<Event>, j: nat)
    requires j < |events|
  {
    Resolves(Run(INIT, events[..j]), events[j])
  }

  ghost predicate InOrderUpTo(events: seq<Event>)
  {
    forall j: nat :: j <= |events| ==> AllSlots(Run(INIT, events[..j]))
  }

  /** In every run of arrivals, completions, broken sends, logins and logouts: the slots are in
      order at every point if and only if every send settled over a socket that still stood for
      its receiver. */
  lemma {:induction false} RunKeepsExactly(events: seq<Event>)
    ensures InOrderUpTo(events) <==> forall j: nat :: j < |events| ==> ResolvesAt(events, j)
  {
    if events == [] {
      assert AllSlots(INIT) by { assert forall id :: SlotAt(INIT, id); }
    } else {
      var n := |events| - 1;
      var before := events[..n];
      RunKeepsExactly(before);
      assert forall j: nat :: j <= n ==> before[..j] == events[..j];
      assert before == events[..n] && events == events[..n + 1];
      if InOrderUpTo(events) { ExactlyForth(events); }
      if forall j: nat :: j < |events| ==> ResolvesAt(events, j) { ExactlyBack(events); }
    }
  }

  lemma ExactlyForth(events: seq<Event>)
    requires events != [] && InOrderUpTo(events)
    ensures forall j: nat :: j < |events| ==> ResolvesAt(events, j)
  {
    forall j: nat | j < |events| ensures ResolvesAt(events, j) {
      assert AllSlots(Run(INIT, events[..j])) && AllSlots(Run(INIT, events[..j + 1]));
      assert events[..j + 1][..j] == events[..j] && events[..j + 1][j] == events[j];
      StepKeepsExactly(Run(INIT, events[..j]), events[j]);
    }
  }

  lemma ExactlyBack(events: seq<Event>)
    requires events != [] && forall j: nat :: j < |events| ==> ResolvesAt(events, j)
    requires var before := events[..|events| - 1];
      InOrderUpTo(before) <==> forall j: nat :: j < |before| ==> ResolvesAt(before, j)
    ensures InOrderUpTo(events)
  {
    var n := |events| - 1;
    var before := events[..n];
    forall j: nat | j < n ensures ResolvesAt(before, j) {
      assert ResolvesAt(events, j) && before[..j] == events[..j];
    }
    forall j: nat | j <= |events| ensures AllSlots(Run(INIT, events[..j])) {
      if j <= n {
        assert AllSlots(Run(INIT, before[..j])) && before[..j] == events[..j];
      } else {
        assert AllSlots(Run(INIT, before[..n])) && before[..n] == before && events[..j] == events;
        assert ResolvesAt(events, n);
        StepKeepsExactly(Run(INIT, before), events[n]);
      }
    }
  }

  // ---- Sessions that stay while they are sent to ----

  /** The two session maps are inverse to each other. */
  ghost predicate SessionsOk(s: State)
  {
    && "" !in s.socks
    && (forall k :: k in s.ids ==> s.ids[k] in s.socks && s.socks[s.ids[k]] == k)
    && (forall id :: id in s.socks ==> s.socks[id] in s.ids && s.ids[s.socks[id]] == id)
  }

  /** Every send for the receiver is over a socket that stands for it. */
  ghost predicate OverOwnSocket(s: State, id: Id)
  {
    && (forall i :: 0 <= i < |NetOf(s, id).flight| ==> IdOf(s.ids, NetOf(s, id).flight[i].socket) == id)
    && (id == "" ==> NetOf(s, id).flight == [])
  }

  /** A receiver that would lose its socket has nothing on the network: the id removed, the id a login
      takes over from another socket, and the id the socket stood for before. */
  predicate Patient(s: State, e: Event)
  {
    match e
    case Remove(id) => id in s.socks ==> NetOf(s, id).flight == []
    case Register(id, k) =>
      && (id in s.socks && s.socks[id] != k ==> NetOf(s, id).flight == [])
      && (k in s.ids && s.ids[k] != id ==> NetOf(s, s.ids[k]).flight == [])
    case _ => true
  }

  lemma UnregisterStays(s: State, id: Id)
    requires SessionsOk(s)
    ensures SessionsOk(Unregister(s, id)) && id !in Unregister(s, id).socks
  {
  }

  lemma RegisterStays(s: State, id: Id, k: Socket)
    requires SessionsOk(s) && id != ""
    ensures SessionsOk(Step(s, Register(id, k)))
  {
    UnregisterStays(s, id);
    var r := Unregister(s, id);
    UnregisterStays(r, IdOf(s.ids, k));
  }

  lemma SessionsStay(s: State, e: Event)
    requires SessionsOk(s)
    ensures SessionsOk(Step(s, e))
  {
    match e
    case Register(id, k) => if id != "" { RegisterStays(s, id, k); }
    case Remove(id) => UnregisterStays(s, id);
    case _ => assert Step(s, e).ids == s.ids && Step(s, e).socks == s.socks;
  }

  lemma PatientSession(s: State, e: Event, id: Id)
    requires SessionsOk(s) && OverOwnSocket(s, id) && (e.Register? || e.Remove?) && Patient(s, e)
    ensures OverOwnSocket(Step(s, e), id)
  {
    assert NetOf(Step(s, e), id) == NetOf(s, id);
  }

  lemma PatientTraffic(s: State, e: Event, id: Id)
    requires SessionsOk(s) && AllSlots(s) && OverOwnSocket(s, e.id) && OverOwnSocket(s, id)
    requires !e.Register? && !e.Remove? && Resolves(s, e)
    ensures OverOwnSocket(Step(s, e), id)
  {
    assert Step(s, e).ids == s.ids;
    if id != e.id { StepElsewhere(s, e, id); } else { assert SlotAt(s, id); }
  }

  lemma PatientStep(s: State, e: Event, id: Id)
    requires SessionsOk(s) && AllSlots(s) && OverOwnSocket(s, e.id) && OverOwnSocket(s, id) && Patient(s, e)
    ensures Resolves(s, e) && OverOwnSocket(Step(s, e), id)
  {
    if e.Register? || e.Remove? { PatientSession(s, e, id); } else { PatientTraffic(s, e, id); }
  }

  /** In every run in which no login or logout takes a socket away from a receiver with a packet on
      the network, all slots are in order. */
  lemma {:induction false} PatientRunsKeepTheSlots(events: seq<Event>)
    requires forall j: nat :: j < |events| ==> Patient(Run(INIT, events[..j]), events[j])
    ensures var s := Run(INIT, events); SessionsOk(s) && AllSlots(s) && forall id :: OverOwnSocket(s, id)
  {
    if events == [] {
      assert forall id :: SlotAt(INIT, id) && OverOwnSocket(INIT, id);
    } else {
      var n := |events| - 1;
      var before, e := events[..n], events[n];
      forall j: nat | j < n ensures Patient(Run(INIT, before[..j]), before[j]) {
        assert before[..j] == events[..j] && Patient(Run(INIT, events[..j]), events[j]);
      }
      PatientRunsKeepTheSlots(before);
      var s := Run(INIT, before);
      assert Patient(s, e) by { assert Patient(Run(INIT, events[..n]), events[n]); }
      SessionsStay(s, e);
      forall id ensures OverOwnSocket(Step(s, e), id) { PatientStep(s, e, id); }
      PatientStep(s, e, e.id);
      StepKeepsExactly(s, e);
    }
  }

  /** Where the slots are in order, sends have completed in the order of arrival, and what is on the
      network is the next in that order. */
  lemma CompletedInOrder(q: ClientQueue, n: Net)
    requires SlotOk(q, n)
    ensures n.completed <= n.enqueued && |n.flight| <= 1
    ensures n.flight != [] ==> n.completed + [n.flight[0].packet] <= n.enqueued
  {
    if q.flag {
      assert q.queue == [q.queue[0]] + q.queue[1..];
      assert n.enqueued == (n.completed + [q.queue[0]]) + q.queue[1..];
    }
  }

  /** A queue that waits with the flag down tries its front packet at the next arrival or login of a
      registered receiver, and an accepted attempt takes the slot again. */
  lemma WaitingQueueRetries(s: State, id: Id, p: Packet)
    requires SlotAt(s, id) && id != "" && id in s.socks
    requires var q := QueueOf(s.queues, id); q.queue != [] && !q.flag
    ensures var front := Send(s.socks[id], QueueOf(s.queues, id).queue[0]);
      forall e :: e in {Enqueue(id, p, true), Reconnect(id, true)} ==>
        NetOf(Step(s, e), id).flight == [front] && QueueOf(Step(s, e).queues, id).flag
  {
  }

  // ---- A logout while a packet is on the network ----

  /** The receiver logs out while a packet is on its way and the socket stays open: the completion
      finds no receiver, so the flag stays up, and the packet is both completed and queued. */
  lemma LogoutStrandsTheSlot(k: Socket, id: Id, p: Packet, accepted: bool)
    requires id != ""
    ensures var s := Run(INIT, [Register(id, k), Enqueue(id, p, true), Remove(id), Complete(id, accepted)]);
      && Stranded(s, id) && !SlotAt(s, id)
      && QueueOf(s.queues, id).queue == [p] && NetOf(s, id).completed == [p] == NetOf(s, id).enqueued
  {
    RunFour(INIT, Register(id, k), Enqueue(id, p, true), Remove(id), Complete(id, accepted));
    var s1 := Step(INIT, Register(id, k));
    assert s1.queues == map[] && s1.net == map[] && id in s1.socks && s1.socks[id] == k;
    var s2 := Step(s1, Enqueue(id, p, true));
    assert NetOf(s2, id) == Net([Send(k, p)], [p], [], false) && QueueOf(s2.queues, id) == ClientQueue([p], true);
    assert "" !in s2.queues && s2.socks == s1.socks;
    var s3 := Step(s2, Remove(id));
    assert s3.queues == s2.queues && s3.net == s2.net && k !in s3.ids;
  }

  lemma RunFour(s: State, a: Event, b: Event, c: Event, d: Event)
    ensures Run(s, [a, b, c, d]) == Step(Step(Step(Step(s, a), b), c), d)
  {
    assert [a, b, c, d][..3] == [a, b, c] && [a, b, c][..2] == [a, b] && [a, b][..1] == [a] && [a][..0] == [];
    assert Run(s, [a]) == Step(Run(s, []), a);
    assert Run(s, [a, b]) == Step(Run(s, [a]), b);
    assert Run(s, [a, b, c]) == Step(Run(s, [a, b]), c);
  }

  /** No arrival, login, logout or reconnection tries a stranded receiver's packets again, as long as
      other sends settle over sockets that stand for their own receivers. */
  lemma {:induction false} StrandedStays(s: State, events: seq<Event>, id: Id)
    requires Stranded(s, id)
    requires forall j: nat :: j < |events| ==> Resolves(Run(s, events[..j]), events[j])
    ensures Stranded(Run(s, events), id)
  {
    if events == [] {
    } else {
      var n := |events| - 1;
      var before, e := events[..n], events[n];
      forall j: nat | j < n ensures Resolves(Run(s, before[..j]), before[j]) {
        assert before[..j] == events[..j] && Resolves(Run(s, events[..j]), events[j]);
      }
      StrandedStays(s, before, id);
      assert Resolves(Run(s, before), e) by { assert Resolves(Run(s, events[..n]), events[n]); }
      if e.id != id { StepElsewhere(Run(s, before), e, id); }
    }
  }
}
