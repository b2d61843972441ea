/** The linked queue with any number of producers and one consumer, one step per atomic access.
    A push exchanges head and only later links the previous node, so between the two steps the
    list is broken. Addresses of freed nodes may be handed out again. */
module MpscQueue {
  import opened Common

  type Addr = nat
  type Tid = nat

  datatype Node<T> = Node(data: Option<T>, next: Option<Addr>)

  /** push: allocated its node; exchanged head, with prev still to be linked. */
  datatype Producer = Idle | Allocated(node: Addr) | Linking(prev: Addr, node: Addr)

  datatype Call = Pop | Front | Empty

  /** pop, front and empty share their first loads. */
  datatype Consumer =
    | Ready
    | LoadNext(call: Call, at: Addr)
    | LoadHead(call: Call, at: Addr)
    | Spin(call: Call, at: Addr)
    | Advance(at: Addr, next: Addr)
    | Free(at: Addr)
    | ReadData(next: Addr)

  /** A pop that answers true takes the value of the next node off the queue: that node becomes
      the stub, and the old stub is freed. */
  datatype Answer<T> = PopTrue(taken: Option<T>) | PopFalse | FrontIs(value: T) | FrontDefault | EmptyIs(answer: bool)

  /** What a node holds, if it is allocated. */
  function DataAt<T>(heap: map<Addr, Node<T>>, a: Addr): (d: Option<T>)
  {
    if a in heap then heap[a].data else None
  }

  /** An answer, with the number of values pushed and popped when it was decided. */
  datatype Entry<T> = Entry(answer: Answer<T>, pushed: nat, popped: nat)

  /** Memory and threads; then history: the nodes from tail to head in exchange order, who
      exchanged each, all values in exchange order, how many were popped, and the answers given. */
  datatype State<T> = State(heap: map<Addr, Node<T>>, head: Addr, tail: Addr,
                            producers: map<Tid, Producer>, consumer: Consumer,
                            live: seq<Addr>, linker: seq<Tid>, pushed: seq<T>, popped: nat, log: seq<Entry<T>>)

  /** A producer takes its next step, using this value and address for a new push; or the
      consumer takes its next step, making this call if it is between calls. */
  datatype Event<T> = Produce(tid: Tid, value: T, addr: Addr) | Consume(call: Call)

  function Init<T>(stub: Addr, threads: set<Tid>): (s: State<T>)
  {
    State(map[stub := Node(None, None)], stub, stub, map t | t in threads :: Idle, Ready, [stub], [0], [], 0, [])
  }

  function Log<T>(s: State<T>, a: Answer<T>): (s': State<T>)
  {
    s.(log := s.log + [Entry(a, |s.pushed|, s.popped)])
  }

  function ProduceStep<T>(s: State<T>, tid: Tid, value: T, addr: Addr): (s': State<T>)
  {
    if tid !in s.producers then s else
    match s.producers[tid]
    case Idle =>
      if addr in s.heap then s   // new returns an address that is not in use
      else s.(heap := s.heap[addr := Node(Some(value), None)], producers := s.producers[tid := Allocated(addr)])
    case Allocated(node) =>
      if node !in s.heap || s.heap[node].data.None? then s   // shown unreachable
      else
        s.(head := node, producers := s.producers[tid := Linking(s.head, node)],
           live := s.live + [node], linker := s.linker + [tid], pushed := s.pushed + [s.heap[node].data.value])
    case Linking(prev, node) =>
      if prev !in s.heap then s   // a store to freed memory: shown unreachable
      else s.(heap := s.heap[prev := s.heap[prev].(next := Some(node))], producers := s.producers[tid := Idle])
  }

  /** The rest of pop or front, once the next node is known. */
  function Found(call: Call, at: Addr, next: Addr): (c: Consumer)
    requires !call.Empty?
  {
    if call.Pop? then Advance(at, next) else ReadData(next)
  }

  function ConsumeStep<T>(s: State<T>, call: Call): (s': State<T>)
  {
    match s.consumer
    case Ready => s.(consumer := LoadNext(call, s.tail))
    case LoadNext(c, at) =>
      if at !in s.heap then s else   // shown unreachable
      var next := s.heap[at].next;
      if c.Empty? then Log(s.(consumer := Ready), EmptyIs(next.None?))
      else if next.Some? then s.(consumer := Found(c, at, next.value))
      else s.(consumer := LoadHead(c, at))
    case LoadHead(c, at) =>
      if at == s.head then Log(s.(consumer := Ready), if c.Pop? then PopFalse else FrontDefault)
      else s.(consumer := Spin(c, at))
    case Spin(c, at) =>
      if at !in s.heap then s else   // shown unreachable
      var next := s.heap[at].next;
      if next.Some? && !c.Empty? then s.(consumer := Found(c, at, next.value)) else s
    case Advance(at, next) =>
      Log(s, PopTrue(DataAt(s.heap, next))).(tail := next, consumer := Free(at), live := s.live[if s.live == [] then 0 else 1..],
                       linker := s.linker[if s.linker == [] then 0 else 1..], popped := s.popped + 1)
    case Free(at) => s.(heap := s.heap - {at}, consumer := Ready)
    case ReadData(next) =>
      if next !in s.heap || s.heap[next].data.None? then s   // reading freed data: shown unreachable
      else Log(s.(consumer := Ready), FrontIs(s.heap[next].data.value))
  }

  function Step<T>(s: State<T>, e: Event<T>): (s': State<T>)
  {
    match e
    case Produce(tid, value, addr) => ProduceStep(s, tid, value, addr)
    case Consume(call) => ConsumeStep(s, call)
  }

  function Run<T>(s: State<T>, events: seq<Event<T>>): (s': State<T>)
  {
    if events == [] then s else Step(Run(s, events[..|events| - 1]), events[|events| - 1])
  }

  // ---- The invariant ----

  ghost predicate ListOk<T>(s: State<T>)
  {
    && |s.live| == |s.linker| && s.live != [] && s.popped + |s.live| == |s.pushed| + 1
    && s.live[0] == s.tail && s.live[|s.live| - 1] == s.head
    && forall i, j :: 0 <= i < j < |s.live| ==> s.live[i] != s.live[j]
  }

  /** Node i of the list holds its value, and is linked to node i + 1 or about to be. */
  ghost predicate NodeOk<T>(s: State<T>, i: nat)
    requires ListOk(s) && i < |s.live|
  {
    && s.live[i] in s.heap
    && (i > 0 ==> s.heap[s.live[i]].data == Some(s.pushed[s.popped + i - 1]))
    && if i + 1 == |s.live| then s.heap[s.live[i]].next == None
       else
         || s.heap[s.live[i]].next == Some(s.live[i + 1])
         || (s.heap[s.live[i]].next == None && s.linker[i + 1] in s.producers
             && s.producers[s.linker[i + 1]] == Linking(s.live[i], s.live[i + 1]))
  }

  /** Memory outside the list that some thread will still touch. */
  predicate Holds(p: Producer, a: Addr)
  {
    p == Allocated(a)
  }

  ghost predicate ProducerOk<T>(s: State<T>, tid: Tid)
    requires ListOk(s) && tid in s.producers
  {
    match s.producers[tid]
    case Idle => true
    case Allocated(node) =>
      && node !in s.live && node in s.heap && s.heap[node].data.Some? && s.heap[node].next == None
      && s.consumer != Free(node)
      && forall u :: u in s.producers && u != tid ==> !Holds(s.producers[u], node)
    case Linking(prev, node) =>
      exists i: nat :: 0 < i < |s.live| && LinkAt(s, tid, prev, node, i)
  }

  ghost predicate LinkAt<T>(s: State<T>, tid: Tid, prev: Addr, node: Addr, i: nat)
    requires ListOk(s) && 0 < i < |s.live|
  {
    s.linker[i] == tid && s.live[i - 1] == prev && s.live[i] == node && prev in s.heap && s.heap[prev].next == None
  }

  ghost predicate ConsumerOk<T>(s: State<T>)
    requires ListOk(s)
  {
    match s.consumer
    case Ready => true
    case LoadNext(_, at) => at == s.tail
    case LoadHead(c, at) => at == s.tail && !c.Empty?
    case Spin(c, at) => at == s.tail && |s.live| >= 2 && !c.Empty?
    case Advance(at, next) => at == s.tail && |s.live| >= 2 && next == s.live[1] && NextIs(s, at, next)
    case Free(at) => at !in s.live && at in s.heap
    case ReadData(next) => |s.live| >= 2 && next == s.live[1]
  }

  ghost predicate NextIs<T>(s: State<T>, at: Addr, next: Addr)
  {
    at in s.heap && s.heap[at].next == Some(next)
  }

  /** What an answer says about the values pushed and popped when it was decided. */
  ghost predicate AnswerOk<T>(pushed: seq<T>, e: Entry<T>)
  {
    && e.popped <= e.pushed <= |pushed|
    && match e.answer
       case PopTrue(taken) => e.popped < e.pushed && taken == Some(pushed[e.popped])
       case PopFalse => e.popped == e.pushed
       case FrontIs(v) => e.popped < e.pushed && v == pushed[e.popped]
       case FrontDefault => e.popped == e.pushed
       case EmptyIs(b) => !b ==> e.popped < e.pushed
  }

  ghost predicate Inv<T(!new)>(s: State<T>)
  {
    && ListOk(s) && ConsumerOk(s)
    && (forall i: nat :: i < |s.live| ==> NodeOk(s, i))
    && (forall tid :: tid in s.producers ==> ProducerOk(s, tid))
    && (forall e :: e in s.log ==> AnswerOk(s.pushed, e))
  }

  lemma InitInv<T(!new)>(stub: Addr, threads: set<Tid>)
    ensures Inv(Init<T>(stub, threads))
  {
  }

  // ---- Producers ----

  lemma AllocateKeeps<T(!new)>(s: State<T>, tid: Tid, value: T, addr: Addr)
    requires Inv(s) && tid in s.producers && s.producers[tid].Idle?
    ensures Inv(ProduceStep(s, tid, value, addr))
  {
    var s' := ProduceStep(s, tid, value, addr);
    assert addr !in s.heap ==> addr !in s.live by {
      if addr in s.live { var i: nat :| i < |s.live| && s.live[i] == addr; assert NodeOk(s, i); }
    }
    forall i: nat | i < |s'.live| ensures NodeOk(s', i) { assert NodeOk(s, i); }
    forall u | u in s'.producers ensures ProducerOk(s', u) {
      assert ProducerOk(s, u);
      if u != tid && s.producers[u].Linking? {
        var i: nat :| 0 < i < |s.live| && LinkAt(s, u, s.producers[u].prev, s.producers[u].node, i);
        assert LinkAt(s', u, s.producers[u].prev, s.producers[u].node, i);
      }
    }
  }

  lemma ExchangeProducers<T(!new)>(s: State<T>, tid: Tid, value: T, addr: Addr, u: Tid)
    requires Inv(s) && tid in s.producers && s.producers[tid].Allocated? && u in s.producers
    requires ListOk(ProduceStep(s, tid, value, addr)) && ProducerOk(s, tid)
    ensures ProducerOk(ProduceStep(s, tid, value, addr), u)
  {
    var s', n := ProduceStep(s, tid, value, addr), |s.live|;
    assert ProducerOk(s, u);
    if u == tid {
      assert NodeOk(s, n - 1);
      assert LinkAt(s', u, s.head, s.producers[tid].node, n);
    } else if s.producers[u].Linking? {
      var i: nat :| 0 < i < n && LinkAt(s, u, s.producers[u].prev, s.producers[u].node, i);
      assert LinkAt(s', u, s.producers[u].prev, s.producers[u].node, i);
    }
  }

  lemma ExchangeNodes<T(!new)>(s: State<T>, tid: Tid, value: T, addr: Addr, i: nat)
    requires Inv(s) && tid in s.producers && s.producers[tid].Allocated? && ProducerOk(s, tid)
    requires ListOk(ProduceStep(s, tid, value, addr)) && i <= |s.live|
    ensures NodeOk(ProduceStep(s, tid, value, addr), i)
  {
    if i < |s.live| { assert NodeOk(s, i); }
  }

  lemma ExchangeKeeps<T(!new)>(s: State<T>, tid: Tid, value: T, addr: Addr)
    requires Inv(s) && tid in s.producers && s.producers[tid].Allocated?
    ensures Inv(ProduceStep(s, tid, value, addr))
  {
    var s', n := ProduceStep(s, tid, value, addr), |s.live|;
    assert ProducerOk(s, tid);
    assert forall i :: 0 <= i < n ==> s.live[i] in s.live;
    forall i: nat | i < |s'.live| ensures NodeOk(s', i) { ExchangeNodes(s, tid, value, addr, i); }
    forall u | u in s'.producers ensures ProducerOk(s', u) { ExchangeProducers(s, tid, value, addr, u); }
  }

  lemma LinkProducers<T(!new)>(s: State<T>, tid: Tid, value: T, addr: Addr, u: Tid)
    requires Inv(s) && tid in s.producers && s.producers[tid].Linking? && u in s.producers && ProducerOk(s, tid)
    requires ListOk(ProduceStep(s, tid, value, addr))
    ensures ProducerOk(ProduceStep(s, tid, value, addr), u)
  {
    var s' := ProduceStep(s, tid, value, addr);
    var k: nat :| 0 < k < |s.live| && LinkAt(s, tid, s.producers[tid].prev, s.producers[tid].node, k);
    assert ProducerOk(s, u);
    if u != tid && s.producers[u].Linking? {
      var i: nat :| 0 < i < |s.live| && LinkAt(s, u, s.producers[u].prev, s.producers[u].node, i);
      assert LinkAt(s', u, s.producers[u].prev, s.producers[u].node, i);
    }
  }

  lemma LinkKeeps<T(!new)>(s: State<T>, tid: Tid, value: T, addr: Addr)
    requires Inv(s) && tid in s.producers && s.producers[tid].Linking?
    ensures Inv(ProduceStep(s, tid, value, addr))
  {
    var s', prev, node := ProduceStep(s, tid, value, addr), s.producers[tid].prev, s.producers[tid].node;
    assert ProducerOk(s, tid);
    var k: nat :| 0 < k < |s.live| && LinkAt(s, tid, prev, node, k);
    forall i: nat | i < |s'.live| ensures NodeOk(s', i) { assert NodeOk(s, i); }
    forall u | u in s'.producers ensures ProducerOk(s', u) { LinkProducers(s, tid, value, addr, u); }
  }

  // ---- The consumer ----

  /** Steps that change only the consumer's position and the log. */
  lemma LocalKeeps<T(!new)>(s: State<T>, c: Consumer, log: seq<Entry<T>>)
    requires Inv(s) && !s.consumer.Free? && !c.Free?
    requires ConsumerOk(s.(consumer := c)) && forall e :: e in log ==> AnswerOk(s.pushed, e)
    ensures Inv(s.(consumer := c, log := log))
  {
    var s' := s.(consumer := c, log := log);
    forall i: nat | i < |s'.live| ensures NodeOk(s', i) { assert NodeOk(s, i); }
    forall u | u in s'.producers ensures ProducerOk(s', u) {
      assert ProducerOk(s, u);
      if s.producers[u].Linking? {
        var i: nat :| 0 < i < |s.live| && LinkAt(s, u, s.producers[u].prev, s.producers[u].node, i);
        assert LinkAt(s', u, s.producers[u].prev, s.producers[u].node, i);
      }
    }
  }

  lemma AdvanceKeeps<T(!new)>(s: State<T>, call: Call)
    requires Inv(s) && s.consumer.Advance?
    ensures Inv(ConsumeStep(s, call))
  {
    var s' := ConsumeStep(s, call);
    assert NodeOk(s, 0) && NodeOk(s, 1);
    assert s.live[0] !in s'.live;
    forall i: nat | i < |s'.live| ensures NodeOk(s', i) { assert NodeOk(s, i + 1); }
    forall u | u in s'.producers ensures ProducerOk(s', u) {
      assert ProducerOk(s, u);
      if s.producers[u].Linking? {
        var i: nat :| 0 < i < |s.live| && LinkAt(s, u, s.producers[u].prev, s.producers[u].node, i);
        assert i > 1;
        assert LinkAt(s', u, s.producers[u].prev, s.producers[u].node, i - 1);
      } else if s.producers[u].Allocated? {
        assert s.live[0] in s.live;
      }
    }
  }

  lemma FreeKeeps<T(!new)>(s: State<T>, call: Call)
    requires Inv(s) && s.consumer.Free?
    ensures Inv(ConsumeStep(s, call))
  {
    var s' := ConsumeStep(s, call);
    assert forall i :: 0 <= i < |s.live| ==> s.live[i] in s.live;
    forall i: nat | i < |s'.live| ensures NodeOk(s', i) { assert NodeOk(s, i); }
    forall u | u in s'.producers ensures ProducerOk(s', u) {
      assert ProducerOk(s, u);
      if s.producers[u].Linking? {
        var i: nat :| 0 < i < |s.live| && LinkAt(s, u, s.producers[u].prev, s.producers[u].node, i);
        assert LinkAt(s', u, s.producers[u].prev, s.producers[u].node, i);
      }
    }
  }

  /** The loads of pop, front and empty. */
  lemma LoadKeeps<T(!new)>(s: State<T>, call: Call)
    requires Inv(s) && !s.consumer.Advance? && !s.consumer.Free? && !s.consumer.ReadData?
    ensures Inv(ConsumeStep(s, call))
  {
    var s' := ConsumeStep(s, call);
    assert NodeOk(s, 0);
    LocalKeeps(s, s'.consumer, s'.log);
  }

  lemma ReadKeeps<T(!new)>(s: State<T>, call: Call)
    requires Inv(s) && s.consumer.ReadData?
    ensures Inv(ConsumeStep(s, call))
  {
    var s' := ConsumeStep(s, call);
    assert NodeOk(s, 1);
    LocalKeeps(s, s'.consumer, s'.log);
  }

  lemma ConsumeKeeps<T(!new)>(s: State<T>, call: Call)
    requires Inv(s)
    ensures Inv(ConsumeStep(s, call))
  {
    match s.consumer
    case Advance(_, _) => AdvanceKeeps(s, call);
    case Free(_) => FreeKeeps(s, call);
    case ReadData(_) => ReadKeeps(s, call);
    case _ => LoadKeeps(s, call);
  }

  lemma StepKeeps<T(!new)>(s: State<T>, e: Event<T>)
    requires Inv(s)
    ensures Inv(Step(s, e))
  {
    match e
    case Consume(call) => ConsumeKeeps(s, call);
    case Produce(tid, value, addr) =>
      if tid in s.producers {
        match s.producers[tid]
        case Idle => AllocateKeeps(s, tid, value, addr);
        case Allocated(_) => ExchangeKeeps(s, tid, value, addr);
        case Linking(_, _) => LinkKeeps(s, tid, value, addr);
      }
  }

  lemma {:induction false} RunKeeps<T(!new)>(s: State<T>, events: seq<Event<T>>)
    requires Inv(s)
    ensures Inv(Run(s, events))
  {
    if events == [] {
    } else {
      RunKeeps(s, events[..|events| - 1]);
      StepKeeps(Run(s, events[..|events| - 1]), events[|events| - 1]);
    }
  }

  // ---- What every run guarantees ----

  function Reached<T>(stub: Addr, threads: set<Tid>, events: seq<Event<T>>): (s: State<T>)
  {
    Run(Init<T>(stub, threads), events)
  }

  lemma ReachedInv<T(!new)>(stub: Addr, threads: set<Tid>, events: seq<Event<T>>)
    ensures Inv(Reached(stub, threads, events))
  {
    InitInv<T>(stub, threads);
    RunKeeps(Init<T>(stub, threads), events);
  }

  /** The values that the pops which answered true found in the nodes they took off. */
  function Yielded<T>(log: seq<Entry<T>>): (values: seq<T>)
  {
    if log == [] then [] else
    var n := |log| - 1;
    Yielded(log[..n]) + (if log[n].answer.PopTrue? && log[n].answer.taken.Some? then [log[n].answer.taken.value] else [])
  }

  /** The consumer's step adds nothing, or one answer; a true pop counts one more. */
  lemma ConsumeHistory<T(!new)>(s: State<T>, call: Call)
    ensures var s' := ConsumeStep(s, call);
      && s'.pushed == s.pushed
      && ((s'.log == s.log && s'.popped == s.popped)
          || (|s'.log| == |s.log| + 1 && s'.log == s.log + [Entry(s'.log[|s.log|].answer, |s.pushed|, s.popped)]
              && s'.popped == s.popped + (if s'.log[|s.log|].answer.PopTrue? then 1 else 0)))
  {
    if s.consumer.Advance? {
      assert ConsumeStep(s, call).log == Log(s, PopTrue(DataAt(s.heap, s.consumer.next))).log;
    }
  }

  lemma AnswerYields<T(!new)>(pushed: seq<T>, popped: nat, log: seq<Entry<T>>, a: Answer<T>)
    requires popped <= |pushed| && Yielded(log) == pushed[..popped] && AnswerOk(pushed, Entry(a, |pushed|, popped))
    ensures Yielded(log + [Entry(a, |pushed|, popped)]) == pushed[..popped + (if a.PopTrue? then 1 else 0)]
  {
    var log' := log + [Entry(a, |pushed|, popped)];
    assert log'[..|log|] == log;
  }

  lemma StepYields<T(!new)>(s: State<T>, e: Event<T>)
    requires Inv(s) && Inv(Step(s, e)) && Yielded(s.log) == s.pushed[..s.popped]
    ensures Yielded(Step(s, e).log) == Step(s, e).pushed[..Step(s, e).popped]
  {
    var s' := Step(s, e);
    match e
    case Produce(tid, value, addr) => ProduceHistory(s, tid, value, addr);
    case Consume(call) =>
      ConsumeHistory(s, call);
      if s'.log != s.log {
        var entry := s'.log[|s.log|];
        assert entry in s'.log;
        AnswerYields(s.pushed, s.popped, s.log, entry.answer);
      }
  }

  /** A producer's step adds no answer, and values only at the end. */
  lemma ProduceHistory<T(!new)>(s: State<T>, tid: Tid, value: T, addr: Addr)
    ensures var s' := ProduceStep(s, tid, value, addr); 
      s'.log == s.log && s'.popped == s.popped && s.pushed <= s'.pushed && s'.consumer == s.consumer
  {
  }

  /** In every run the values found in the nodes popped are the first values pushed, in exchange
      order, each once. */
  lemma {:induction false} EveryRunYieldsInOrder<T(!new)>(stub: Addr, threads: set<Tid>, events: seq<Event<T>>)
    ensures var s := Reached(stub, threads, events);
      s.popped <= |s.pushed| && Yielded(s.log) == s.pushed[..s.popped]
  {
    ReachedInv(stub, threads, events);
    if events == [] {
      assert Reached<T>(stub, threads, events).log == [];
    } else {
      var before := events[..|events| - 1];
      EveryRunYieldsInOrder(stub, threads, before);
      ReachedInv(stub, threads, before);
      StepYields(Reached(stub, threads, before), events[|events| - 1]);
    }
  }

  /** In every run: a pop that answered false and a front that gave the default value found nothing
      queued when they read head; a front that gave a value gave the oldest one not yet popped; and
      empty answered false only with something queued. */
  lemma EveryAnswerIsRight<T(!new)>(stub: Addr, threads: set<Tid>, events: seq<Event<T>>, i: nat)
    requires i < |Reached(stub, threads, events).log|
    ensures var s := Reached(stub, threads, events); AnswerOk(s.pushed, s.log[i])
  {
    ReachedInv(stub, threads, events);
    var s := Reached(stub, threads, events);
    assert s.log[i] in s.log;
  }

  /** The address a thread's next step reads, writes or frees. */
  predicate ConsumerTouches(c: Consumer, a: Addr)
  {
    ((c.LoadNext? || c.Spin? || c.Free?) && c.at == a) || (c.ReadData? && c.next == a)
  }

  predicate ProducerTouches(p: Producer, a: Addr)
  {
    p.Linking? && p.prev == a
  }

  /** No step of any run touches freed memory, and the data front reads is there. */
  lemma NoFreedAccess<T(!new)>(stub: Addr, threads: set<Tid>, events: seq<Event<T>>, a: Addr)
    ensures var s := Reached(stub, threads, events);
      && (ConsumerTouches(s.consumer, a) ==> a in s.heap)
      && (s.consumer == ReadData(a) ==> s.heap[a].data.Some?)
      && (forall tid :: tid in s.producers && ProducerTouches(s.producers[tid], a) ==> a in s.heap)
  {
    ReachedInv(stub, threads, events);
    var s := Reached(stub, threads, events);
    assert NodeOk(s, 0);
    if s.consumer.ReadData? { assert NodeOk(s, 1); }
    forall tid | tid in s.producers && ProducerTouches(s.producers[tid], a) ensures a in s.heap {
      assert ProducerOk(s, tid);
    }
  }

  /** At its load of head, pop answers false exactly when nothing is queued. */
  lemma PopFalseExactlyWhenEmpty<T(!new)>(s: State<T>, call: Call)
    requires Inv(s) && s.consumer.LoadHead? && s.consumer.call.Pop?
    ensures ConsumeStep(s, call).consumer.Ready? <==> s.popped == |s.pushed|
    ensures ConsumeStep(s, call).consumer.Ready? ==>
      ConsumeStep(s, call).log == s.log + [Entry(PopFalse, |s.pushed|, s.popped)]
  {
  }

  /** empty answers true exactly when nothing is queued or the oldest queued node is not linked yet. */
  lemma EmptyExactlyWhenUnlinked<T(!new)>(s: State<T>, call: Call)
    requires Inv(s) && s.consumer.LoadNext? && s.consumer.call.Empty?
    ensures ConsumeStep(s, call).log == s.log + [Entry(EmptyIs(true), |s.pushed|, s.popped)] <==>
      s.popped == |s.pushed| || (s.linker[1] in s.producers && s.producers[s.linker[1]] == Linking(s.tail, s.live[1]))
  {
    assert NodeOk(s, 0);
    var s' := ConsumeStep(s, call);
    assert s'.log == s.log + [s'.log[|s.log|]];
    if s.popped < |s.pushed| && s.linker[1] in s.producers && s.producers[s.linker[1]] == Linking(s.tail, s.live[1]) {
      assert ProducerOk(s, s.linker[1]);
    }
  }

  /** The wait for a producer ends: the producer is still to link the very node waited at, and once
      it has, the consumer goes on with the oldest queued node. */
  lemma SpinEndsWithTheLink<T(!new)>(s: State<T>, value: T, addr: Addr, call: Call)
    requires Inv(s) && s.consumer.Spin? && ConsumeStep(s, call) == s
    ensures s.linker[1] in s.producers && s.producers[s.linker[1]] == Linking(s.tail, s.live[1])
    ensures ConsumeStep(ProduceStep(s, s.linker[1], value, addr), call).consumer ==
      Found(s.consumer.call, s.tail, s.live[1])
  {
    assert NodeOk(s, 0);
  }

  // ---- Pushes and their calls ----

  /** The thread starts a push with this event. */
  predicate Starts<T>(s: State<T>, e: Event<T>, tid: Tid)
  {
    e.Produce? && e.tid == tid && tid in s.producers && s.producers[tid].Idle? && e.addr !in s.heap
  }

  /** The values a thread called push with, in call order. */
  function Calls<T>(stub: Addr, threads: set<Tid>, events: seq<Event<T>>, tid: Tid): (values: seq<T>)
  {
    if events == [] then [] else
    var before, e := events[..|events| - 1], events[|events| - 1];
    Calls(stub, threads, before, tid) + (if Starts(Reached(stub, threads, before), e, tid) then [e.value] else [])
  }

  /** The threads whose steps added the values pushed, one for each value. */
  function Pushers<T>(stub: Addr, threads: set<Tid>, events: seq<Event<T>>): (who: seq<Tid>)
  {
    if events == [] then [] else
    var before, e := events[..|events| - 1], events[|events| - 1];
    var s := Reached(stub, threads, before);
    Pushers(stub, threads, before) + (if e.Produce? && |Step(s, e).pushed| > |s.pushed| then [e.tid] else [])
  }

  /** The values of one thread. */
  function ValuesBy<T>(values: seq<T>, who: seq<Tid>, tid: Tid): (r: seq<T>)
    requires |values| == |who|
  {
    if values == [] then [] else
    var n := |values| - 1;
    ValuesBy(values[..n], who[..n], tid) + (if who[n] == tid then [values[n]] else [])
  }

  /** The value of a push that has not exchanged head yet. */
  function Pending<T>(s: State<T>, tid: Tid): (values: seq<T>)
  {
    if tid in s.producers && s.producers[tid].Allocated? && DataAt(s.heap, s.producers[tid].node).Some?
    then [DataAt(s.heap, s.producers[tid].node).value] else []
  }

  lemma ValuesBySnoc<T>(values: seq<T>, who: seq<Tid>, v: T, u: Tid, tid: Tid)
    requires |values| == |who|
    ensures ValuesBy(values + [v], who + [u], tid) == ValuesBy(values, who, tid) + (if u == tid then [v] else [])
  {
    assert (values + [v])[..|values|] == values && (who + [u])[..|who|] == who;
  }

  /** A step of another thread, or of the consumer, leaves a waiting push alone. */
  lemma PendingStays<T(!new)>(s: State<T>, e: Event<T>, tid: Tid)
    requires Inv(s) && !(e.Produce? && e.tid == tid)
    ensures Pending(Step(s, e), tid) == Pending(s, tid)
  {
    if tid in s.producers { assert ProducerOk(s, tid); }
  }

  /** What a thread's own step does to its waiting push and to the values pushed. */
  lemma PendingMoves<T(!new)>(s: State<T>, e: Event<T>)
    requires Inv(s) && e.Produce?
    ensures var s' := Step(s, e);
      if Starts(s, e, e.tid) then s'.pushed == s.pushed && Pending(s, e.tid) == [] && Pending(s', e.tid) == [e.value]
      else s'.pushed + Pending(s', e.tid) == s.pushed + Pending(s, e.tid) && |s.pushed| <= |s'.pushed| <= |s.pushed| + 1
  {
    if e.tid in s.producers { assert ProducerOk(s, e.tid); }
  }

  lemma PushersCount<T(!new)>(s: State<T>, e: Event<T>)
    requires Inv(s)
    ensures var s' := Step(s, e); s'.pushed == s.pushed || (e.Produce? && exists v :: s'.pushed == s.pushed + [v])
  {
    if e.Consume? { ConsumeHistory(s, e.call); } else { PendingMoves(s, e); }
  }

  /** In every run each thread's values stand in the exchange order as the thread gave them in its calls,
      call after call; only the value of a push that has not exchanged yet is still to come. */
  lemma {:induction false} EveryPushIsItsCall<T(!new)>(stub: Addr, threads: set<Tid>, events: seq<Event<T>>, tid: Tid)
    ensures var s, who := Reached(stub, threads, events), Pushers(stub, threads, events);
      && |who| == |s.pushed|
      && Calls(stub, threads, events, tid) == ValuesBy(s.pushed, who, tid) + Pending(s, tid)
  {
    if events == [] {
    } else {
      var before, e := events[..|events| - 1], events[|events| - 1];
      EveryPushIsItsCall(stub, threads, before, tid);
      ReachedInv(stub, threads, before);
      var s, who := Reached(stub, threads, before), Pushers(stub, threads, before);
      assert Reached(stub, threads, events) == Step(s, e);
      CallStep(s, e, who, tid);
    }
  }

  lemma CallStep<T(!new)>(s: State<T>, e: Event<T>, who: seq<Tid>, tid: Tid)
    requires Inv(s) && |who| == |s.pushed|
    ensures var s' := Step(s, e);
      var who' := who + (if e.Produce? && |s'.pushed| > |s.pushed| then [e.tid] else []);
      && |who'| == |s'.pushed|
      && ValuesBy(s'.pushed, who', tid) + Pending(s', tid) ==
         ValuesBy(s.pushed, who, tid) + Pending(s, tid) + (if Starts(s, e, tid) then [e.value] else [])
  {
    PushersCount(s, e);
    if e.Produce? && e.tid == tid { PendingMoves(s, e); } else { PendingStays(s, e, tid); }
    var s' := Step(s, e);
    ValuesMove(s.pushed, Pending(s, tid), s'.pushed, Pending(s', tid), who, if e.Produce? then e.tid else 0, tid,
               if Starts(s, e, tid) then [e.value] else []);
  }

  /** The bookkeeping of one step, on values. */
  lemma ValuesMove<T(!new)>(pushed: seq<T>, pending: seq<T>, pushed': seq<T>, pending': seq<T>,
                            who: seq<Tid>, u: Tid, tid: Tid, started: seq<T>)
    requires |who| == |pushed| && (pushed' == pushed || exists v :: pushed' == pushed + [v])
    requires pushed' == pushed ==> pending' == pending + started
    requires pushed' != pushed ==> started == [] && if u == tid then pushed' + pending' == pushed + pending else pending' == pending
    ensures var who' := who + (if |pushed'| > |pushed| then [u] else []);
      |who'| == |pushed'| && ValuesBy(pushed', who', tid) + pending' == ValuesBy(pushed, who, tid) + pending + started
  {
    if pushed' == pushed {
      assert who + [] == who;
    } else {
      var v := pushed'[|pushed|];
      ValuesBySnoc(pushed, who, v, u, tid);
      if u == tid {
        assert pushed + ([v] + pending') == pushed + pending;
        assert pending == (pushed + pending)[|pushed|..] == [v] + pending';
      }
    }
  }

  // ---- The consumer's calls and their answers ----

  /** The calls the consumer made, in order. */
  function ConsumerCalls<T>(stub: Addr, threads: set<Tid>, events: seq<Event<T>>): (calls: seq<Call>)
  {
    if events == [] then [] else
    var before, e := events[..|events| - 1], events[|events| - 1];
    ConsumerCalls(stub, threads, before) +
      (if e.Consume? && Reached(stub, threads, before).consumer.Ready? then [e.call] else [])
  }

  function CallOf<T>(a: Answer<T>): (c: Call)
  {
    match a
    case PopTrue(_) => Pop
    case PopFalse => Pop
    case FrontIs(_) => Front
    case FrontDefault => Front
    case EmptyIs(_) => Empty
  }

  /** The calls a log answers. */
  function Answered<T>(log: seq<Entry<T>>): (calls: seq<Call>)
  {
    if log == [] then [] else Answered(log[..|log| - 1]) + [CallOf(log[|log| - 1].answer)]
  }

  /** The call under way, if it is not answered yet. */
  function Unanswered(c: Consumer): (calls: seq<Call>)
  {
    match c
    case Ready => []
    case LoadNext(call, _) => [call]
    case LoadHead(call, _) => [call]
    case Spin(call, _) => [call]
    case Advance(_, _) => [Pop]
    case Free(_) => []
    case ReadData(_) => [Front]
  }

  lemma AnsweredSnoc<T>(log: seq<Entry<T>>, e: Entry<T>)
    ensures Answered(log + [e]) == Answered(log) + [CallOf(e.answer)]
  {
    assert (log + [e])[..|log|] == log;
  }

  lemma ConsumeKind<T(!new)>(s: State<T>, call: Call)
    requires ListOk(s) && ConsumerOk(s)
    ensures var s' := ConsumeStep(s, call);
      if |s'.log| > |s.log| then Unanswered(s.consumer) == [CallOf(s'.log[|s.log|].answer)] && Unanswered(s'.consumer) == []
      else Unanswered(s'.consumer) == Unanswered(s.consumer) + (if s.consumer.Ready? then [call] else [])
  {
  }

  lemma ConsumeAnswers<T(!new)>(s: State<T>, call: Call)
    requires ListOk(s) && ConsumerOk(s)
    ensures var s' := ConsumeStep(s, call);
      Answered(s'.log) + Unanswered(s'.consumer) ==
      Answered(s.log) + Unanswered(s.consumer) + (if s.consumer.Ready? then [call] else [])
  {
    var s' := ConsumeStep(s, call);
    ConsumeHistory(s, call);
    ConsumeKind(s, call);
    if |s'.log| > |s.log| { AnsweredSnoc(s.log, s'.log[|s.log|]); }
  }

  /** In every run the consumer's calls are answered one after the other, each by an answer of its kind. */
  lemma {:induction false} EveryCallIsAnswered<T(!new)>(stub: Addr, threads: set<Tid>, events: seq<Event<T>>)
    ensures var s := Reached(stub, threads, events);
      ConsumerCalls(stub, threads, events) == Answered(s.log) + Unanswered(s.consumer)
  {
    if events == [] {
    } else {
      var before, e := events[..|events| - 1], events[|events| - 1];
      EveryCallIsAnswered(stub, threads, before);
      ReachedInv(stub, threads, before);
      var s := Reached(stub, threads, before);
      assert Reached(stub, threads, events) == Step(s, e);
      match e
      case Consume(call) => ConsumeAnswers(s, call);
      case Produce(tid, value, addr) => ProduceHistory(s, tid, value, addr);
    }
  }

  // ---- Allocated nodes ----

  /** The node is in the list, with a push that has not exchanged it, or about to be freed. */
  ghost predicate Owned<T>(s: State<T>, a: Addr)
  {
    a in s.live || s.consumer == Free(a) || exists tid :: tid in s.producers && s.producers[tid] == Allocated(a)
  }

  lemma OwnedProduce<T(!new)>(s: State<T>, tid: Tid, value: T, addr: Addr, a: Addr)
    requires a in s.heap ==> Owned(s, a)
    ensures var s' := ProduceStep(s, tid, value, addr); a in s'.heap ==> Owned(s', a)
  {
    var s' := ProduceStep(s, tid, value, addr);
    if a in s'.heap {
      if a !in s.heap {
        assert s'.producers[tid] == Allocated(a);
      } else if a !in s.live && s.consumer != Free(a) {
        var u :| u in s.producers && s.producers[u] == Allocated(a);
        assert u in s'.producers && (s'.producers[u] == Allocated(a) || s'.live == s.live + [a]);
      }
    }
  }

  lemma OwnedAdvance<T(!new)>(s: State<T>, call: Call, a: Addr)
    requires Inv(s) && s.consumer.Advance? && Owned(s, a)
    ensures Owned(ConsumeStep(s, call), a)
  {
    var s' := ConsumeStep(s, call);
    assert s'.producers == s.producers && s'.consumer == Free(s.live[0]) && s.live == [s.live[0]] + s'.live;
  }

  lemma OwnedConsume<T(!new)>(s: State<T>, call: Call, a: Addr)
    requires Inv(s) && (a in s.heap ==> Owned(s, a))
    ensures var s' := ConsumeStep(s, call); a in s'.heap ==> Owned(s', a)
  {
    var s' := ConsumeStep(s, call);
    if s.consumer.Advance? {
      if a in s.heap { OwnedAdvance(s, call, a); }
    } else {
      assert s'.live == s.live && s'.producers == s.producers;
    }
  }

  lemma OwnedStep<T(!new)>(s: State<T>, e: Event<T>, a: Addr)
    requires Inv(s) && (a in s.heap ==> Owned(s, a))
    ensures a in Step(s, e).heap ==> Owned(Step(s, e), a)
  {
    match e
    case Produce(tid, value, addr) => OwnedProduce(s, tid, value, addr, a);
    case Consume(call) => OwnedConsume(s, call, a);
  }

  /** In every run no node stays allocated that nothing refers to: each is in the list, with a push that
      has not exchanged it, or about to be freed by the pop that took it out. */
  lemma {:induction false} NoNodeLeaks<T(!new)>(stub: Addr, threads: set<Tid>, events: seq<Event<T>>, a: Addr)
    ensures var s := Reached(stub, threads, events); a in s.heap ==> Owned(s, a)
  {
    if events == [] {
    } else {
      var before := events[..|events| - 1];
      NoNodeLeaks(stub, threads, before, a);
      ReachedInv(stub, threads, before);
      OwnedStep(Reached(stub, threads, before), events[|events| - 1], a);
    }
  }
}
