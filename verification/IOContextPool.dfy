/** IOContextPool: I/O contexts handed out through an Fqueue of their indices. */
module IOContextPool {
  import opened Common
  import Bits
  import FixedQueue

  const MAX_SIZE: nat := 20000

  /** The fields of PER_IO_OPERATION_DATA that a return resets. */
  datatype Context = Context(hasPacket: bool, totalToSend: nat, bytesSent: nat)

  lemma QueueCapacity(c: nat)
    requires FixedQueue.LeastPower(MAX_SIZE, c)
    ensures c == 32768
  {
    assert Bits.Pow2(5) == 32 && Bits.Pow2(10) == 1024 by { assert Bits.Pow2(5) == 32; Bits.Pow2Add(5, 5); }
    Bits.Pow2Add(10, 5);
    assert Bits.Pow2(15) == 2 * Bits.Pow2(14);
    var k: nat :| c == Bits.Pow2(k);
    if k <= 14 { Bits.Pow2Monotone(k, 14); } else { Bits.Pow2Monotone(15, k); }
  }

  /** Putting an index back keeps the partition exactly when the index was out. */
  lemma ReturnConserves(free: seq<nat>, borrowed: seq<bool>, id: nat)
    requires Partitions(free, borrowed) && id < |borrowed|
    ensures Partitions(free + [id], borrowed[id := false]) <==> borrowed[id]
    ensures borrowed[id] ==> InUseCount(borrowed[id := false]) + 1 == InUseCount(borrowed)
  {
    InUseCountUpdate(borrowed, id);
    if borrowed[id] {
      ReturnPartitions(free, borrowed, id);
    } else {
      var i: nat :| i < |free| && free[i] == id;
      assert (free + [id])[i] == (free + [id])[|free|];
    }
  }

  /** Taking the front index out keeps the partition and counts one more. */
  lemma BorrowConserves(free: seq<nat>, borrowed: seq<bool>)
    requires Partitions(free, borrowed) && free != []
    ensures free[0] < |borrowed| && !borrowed[free[0]]
    ensures Partitions(free[1..], borrowed[free[0] := true])
    ensures InUseCount(borrowed[free[0] := true]) == InUseCount(borrowed) + 1
  {
    BorrowPartitions(free, borrowed);
    InUseCountUpdate(borrowed, free[0]);
  }

  /** Free and borrowed contexts partition the pool, the use counter counts the borrowed ones, and the
      peak is the largest of all counts so far. */
  ghost predicate Consistent(free: seq<nat>, borrowed: seq<bool>, use: nat, peak: nat, counts: seq<nat>)
  {
    && Partitions(free, borrowed) && use == InUseCount(borrowed)
    && counts != [] && counts[|counts| - 1] == use
    && peak in counts && (forall c :: c in counts ==> c <= peak)
  }

  lemma BorrowConsistent(free: seq<nat>, borrowed: seq<bool>, use: nat, peak: nat, counts: seq<nat>)
    requires Consistent(free, borrowed, use, peak, counts) && free != []
    ensures free[0] < |borrowed| && !borrowed[free[0]] && use < |borrowed|
    ensures Consistent(free[1..], borrowed[free[0] := true], use + 1, if use + 1 > peak then use + 1 else peak, counts + [use + 1])
  {
    FreePlusInUse(free, borrowed);
    BorrowConserves(free, borrowed);
    assert use in counts;
  }

  /** currentPacketUse-- on a size_t */
  function Decremented(use: nat): (n: nat)
  {
    if use == 0 then TWO64 - 1 else use - 1
  }

  lemma ReturnConsistent(free: seq<nat>, borrowed: seq<bool>, use: nat, peak: nat, counts: seq<nat>, id: nat)
    requires Consistent(free, borrowed, use, peak, counts) && id < |borrowed|
    ensures Consistent(free + [id], borrowed[id := false], Decremented(use), peak, counts + [Decremented(use)]) <==> borrowed[id]
  {
    ReturnConserves(free, borrowed, id);
    assert use in counts;
  }

  class IOContextPool {
    const freeIndices: FixedQueue.Fqueue<nat>
    var pool: seq<Context>
    var currentPacketUse: nat
    var peak: nat
    /** which contexts are with a borrower; the source does not record this */
    ghost var borrowed: seq<bool>
    /** the number of borrowed contexts after each operation so far */
    ghost var counts: seq<nat>

    ghost predicate Valid()
      reads this, freeIndices, freeIndices.sequence, freeIndices.data
    {
      && freeIndices.Valid() && freeIndices.capacity == 32768
      && |pool| == |borrowed| == MAX_SIZE
      && Consistent(freeIndices.Contents(), borrowed, currentPacketUse, peak, counts)
    }

    constructor ()
      ensures Valid() && currentPacketUse == 0 && peak == 0
      ensures fresh(freeIndices) && fresh(freeIndices.sequence) && fresh(freeIndices.data)
    {
      var q := new FixedQueue.Fqueue<nat>(MAX_SIZE);
      QueueCapacity(q.capacity);
      for i := 0 to MAX_SIZE
        invariant q.Valid() && |q.Contents()| == i && q.capacity == 32768
        invariant forall j :: 0 <= j < i ==> q.Contents()[j] == j
        invariant fresh(q) && fresh(q.sequence) && fresh(q.data)
      {
        var stored := q.Push(i, 0);
      }
      freeIndices := q;
      pool := seq(MAX_SIZE, i => Context(false, 0, 0));
      currentPacketUse, peak := 0, 0;
      borrowed, counts := seq(MAX_SIZE, i => false), [0];
      new;
      NoneInUse(MAX_SIZE);
      forall id: nat | id < MAX_SIZE ensures id in freeIndices.Contents() {
        assert freeIndices.Contents()[id] == id;
      }
    }

    /** The count of borrowed contexts goes up and the peak follows it, with the given number
        of spurious compare-exchange failures. */
    method CountBorrow(spurious: nat)
      modifies this`currentPacketUse, this`peak
      ensures currentPacketUse == old(currentPacketUse) + 1
      ensures peak == if currentPacketUse > old(peak) then currentPacketUse else old(peak)
    {
      var newCount := currentPacketUse + 1;
      currentPacketUse := newCount;
      var prevPeak, failures := peak, spurious;
      while newCount > prevPeak
        invariant peak == old(peak) == prevPeak
        modifies this`peak
        decreases failures
      {
        if failures == 0 { peak := newCount; break; }
        failures := failures - 1;
        prevPeak := peak;
      }
    }

    /** borrowIOPdata: None is the null pointer, returned only when every context is out. */
    method BorrowIOPdata(spurious: nat) returns (r: Option<nat>)
      requires Valid()
      modifies this, freeIndices, freeIndices.sequence
      ensures Valid() && pool == old(pool)
      ensures r.None? <==> old(currentPacketUse) == MAX_SIZE
      ensures r.None? ==> borrowed == old(borrowed)
      ensures r.Some? ==>
        && r.value < MAX_SIZE && !old(borrowed)[r.value]
        && borrowed == old(borrowed)[r.value := true]
        && old(freeIndices.Contents()) == [r.value] + freeIndices.Contents()
    {
      FreePlusInUse(freeIndices.Contents(), borrowed);   // an index of the queue is always below MAX_SIZE
      if freeIndices.Contents() != [] {
        BorrowConsistent(freeIndices.Contents(), borrowed, currentPacketUse, peak, counts);
      }
      r := TakeOut(spurious);
      if r.Some? {
        borrowed, counts := borrowed[r.value := true], counts + [currentPacketUse];
      }
    }

    method TakeOut(spurious: nat) returns (r: Option<nat>)
      requires freeIndices.Valid()
      modifies this`currentPacketUse, this`peak, freeIndices, freeIndices.sequence
      ensures freeIndices.Valid()
      ensures r.None? <==> old(freeIndices.Contents()) == []
      ensures r.None? ==> freeIndices.Contents() == [] && currentPacketUse == old(currentPacketUse) && peak == old(peak)
      ensures r.Some? ==>
        && r.value == old(freeIndices.Contents())[0] && freeIndices.Contents() == old(freeIndices.Contents())[1..]
        && currentPacketUse == old(currentPacketUse) + 1
        && peak == if currentPacketUse > old(peak) then currentPacketUse else old(peak)
    {
      r := freeIndices.Pop(spurious);
      assert r.Some? ==> old(freeIndices.Contents())[1..] == freeIndices.Contents();
      if r.Some? { CountBorrow(spurious); }
    }

    /** returnIOPdata. Conservation survives exactly when the context was out: the source
        neither checks nor refuses a second return. */
    method ReturnIOPdata(pio: Option<nat>, spurious: nat)
      requires Valid()
      modifies this, freeIndices, freeIndices.sequence, freeIndices.data
      ensures Valid() <==> pio.None? || pio.value >= MAX_SIZE || old(borrowed)[pio.value]
      ensures peak == old(peak)
      ensures pio.Some? && pio.value < MAX_SIZE ==>
        && freeIndices.Valid()
        && freeIndices.Contents() == old(freeIndices.Contents()) + [pio.value]
        && pool == old(pool)[pio.value := Context(false, 0, 0)]
        && borrowed == old(borrowed)[pio.value := false]
    {
      if pio.None? { return; }
      var idx := pio.value;
      if idx >= MAX_SIZE { return; }
      FreePlusInUse(freeIndices.Contents(), borrowed);
      ReturnConsistent(freeIndices.Contents(), borrowed, currentPacketUse, peak, counts, idx);
      PutBack(idx, spurious);
      borrowed, counts := borrowed[idx := false], counts + [currentPacketUse];
    }

    method PutBack(idx: nat, spurious: nat)
      requires freeIndices.Valid() && |freeIndices.Contents()| < freeIndices.capacity && idx < |pool|
      modifies this`pool, this`currentPacketUse
      modifies freeIndices`head, freeIndices.sequence, freeIndices.data
      ensures freeIndices.Valid() && freeIndices.Contents() == old(freeIndices.Contents()) + [idx]
      ensures pool == old(pool)[idx := Context(false, 0, 0)]
      ensures currentPacketUse == Decremented(old(currentPacketUse))
    {
      pool := pool[idx := Context(false, 0, 0)];
      var stored := freeIndices.Push(idx, spurious);
      currentPacketUse := Decremented(currentPacketUse);
    }
  }
}
