/** Fqueue as an object, one call at a time: the round-up of its capacity, and push and pop
    when no other thread interferes. The interleaved behaviour is FixedQueueSteps. */
module FixedQueue {
  import opened Common
  import Bits
  import FixedQueueSteps

  /** r is the least power of two that is at least n. */
  ghost predicate LeastPower(n: nat, r: nat)
  {
    && (exists k: nat :: r == Bits.Pow2(k))
    && n <= r
    && forall j: nat :: n <= Bits.Pow2(j) ==> r <= Bits.Pow2(j)
  }

  /** n |= n >> s: the run of ones below the leading bit of n grows by s. */
  method Smear(n: nat, s: nat, ghost top: nat, ghost width: nat) returns (r: nat)
    requires n > 0 ==> s <= width && Bits.TopOnes(n, top, width)
    ensures r > 0 <==> n > 0
    ensures n > 0 ==> Bits.TopOnes(r, top, width + s)
  {
    if n > 0 { Bits.SmearStep(n, top, width, s); }
    r := Bits.Or(n, Bits.Shr(n, s));
    Bits.OrAtLeast(n, Bits.Shr(n, s));
    Bits.ShrBound(n, s);
  }

  lemma NextPowerIsLeast(n: nat, top: nat)
    requires Bits.Pow2(top) < n <= Bits.Pow2(top + 1)
    ensures LeastPower(n, Bits.Pow2(top + 1))
  {
    forall j: nat | n <= Bits.Pow2(j) ensures Bits.Pow2(top + 1) <= Bits.Pow2(j) {
      if j <= top { Bits.Pow2Monotone(j, top); } else { Bits.Pow2Monotone(top + 1, j); }
    }
  }

  /** The leading bit of a 64-bit word, and when the next power still fits. */
  lemma WordTop(m: nat) returns (top: nat)
    requires 0 < m < TWO64
    ensures top < 64 && Bits.TopOnes(m, top, 1) && Bits.Pow2(top) <= m
    ensures m < TWO64 / 2 ==> Bits.Pow2(top + 1) < TWO64
    ensures m >= TWO64 / 2 ==> Bits.Pow2(top + 1) == TWO64
  {
    top := Bits.LeadingBit(m);
    Bits.WordSizes();
    if top >= 64 { Bits.Pow2Monotone(64, top); }
    if top < 63 { Bits.Pow2Monotone(top + 1, 63); }
  }

  /** round_up_to_power_of_two on a 64-bit size_t. Above 2^63 the result wraps to 0. */
  method RoundUpToPowerOfTwo(n: nat) returns (r: nat)
    requires n < TWO64
    ensures n == 0 ==> r == 2
    ensures 1 <= n <= TWO64 / 2 ==> LeastPower(n, r)
    ensures n > TWO64 / 2 ==> r == 0
  {
    if n == 0 { return 2; }
    ghost var top: nat := 0;
    if n > 1 { top := WordTop(n - 1); }
    var m := n - 1;
    m := Smear(m, 1, top, 1);
    m := Smear(m, 2, top, 2);
    m := Smear(m, 4, top, 4);
    m := Smear(m, 8, top, 8);
    m := Smear(m, 16, top, 16);
    m := Smear(m, 32, top, 32);
    r := (m + 1) % TWO64;
    if n > 1 {
      Bits.AllOnes(m, top);
      NextPowerIsLeast(n, top);
    } else {
      assert r == Bits.Pow2(0);
    }
  }

  // ---- The ring between calls ----

  ghost predicate Shape(cap: nat, sq: seq<nat>, head: nat, tail: nat)
  {
    && cap >= 2 && |sq| == cap && (exists k: nat :: cap == Bits.Pow2(k))
    && tail <= head <= tail + cap
    && (forall t: nat :: tail <= t < head ==> sq[FixedQueueSteps.Slot(cap, t)] == t + 1)
    && (forall t: nat :: head <= t < tail + cap ==> sq[FixedQueueSteps.Slot(cap, t)] == t)
  }

  /** The queued values, oldest first. */
  ghost function View<T>(cap: nat, data: seq<T>, head: nat, tail: nat): (s: seq<T>)
    requires cap > 0 && |data| == cap && tail <= head
    ensures |s| == head - tail
    ensures forall i :: 0 <= i < head - tail ==> s[i] == data[FixedQueueSteps.Slot(cap, tail + i)]
  {
    seq(head - tail, i requires 0 <= i => data[FixedQueueSteps.Slot(cap, tail + i)])
  }

  lemma SlotsApart(cap: nat, low: nat, pos: nat)
    requires cap > 0 && low <= pos < low + cap
    ensures forall t: nat :: low <= t < low + cap && t != pos ==>
      FixedQueueSteps.Slot(cap, t) != FixedQueueSteps.Slot(cap, pos)
  {
    forall t: nat | low <= t < low + cap && t != pos
      ensures FixedQueueSteps.Slot(cap, t) != FixedQueueSteps.Slot(cap, pos)
    {
      if t < pos { FixedQueueSteps.SlotsDistinct(cap, t, pos); } else { FixedQueueSteps.SlotsDistinct(cap, pos, t); }
    }
  }

  lemma PushSlot(cap: nat, sq: seq<nat>, head: nat, tail: nat)
    requires Shape(cap, sq, head, tail)
    ensures sq[FixedQueueSteps.Slot(cap, head)] <= head
    ensures sq[FixedQueueSteps.Slot(cap, head)] == head <==> head < tail + cap
  {
    FixedQueueSteps.SlotPeriodic(cap, tail);
  }

  lemma PopSlot(cap: nat, sq: seq<nat>, head: nat, tail: nat)
    requires Shape(cap, sq, head, tail)
    ensures sq[FixedQueueSteps.Slot(cap, tail)] <= tail + 1
    ensures sq[FixedQueueSteps.Slot(cap, tail)] == tail + 1 <==> tail < head
  {
  }

  lemma PushRing<T>(cap: nat, sq: seq<nat>, data: seq<T>, head: nat, tail: nat, v: T)
    requires Shape(cap, sq, head, tail) && |data| == cap && head < tail + cap
    ensures var i := FixedQueueSteps.Slot(cap, head);
      && Shape(cap, sq[i := head + 1], head + 1, tail)
      && View(cap, data[i := v], head + 1, tail) == View(cap, data, head, tail) + [v]
  {
    SlotsApart(cap, tail, head);
    var i := FixedQueueSteps.Slot(cap, head);
    var a, b := View(cap, data[i := v], head + 1, tail), View(cap, data, head, tail) + [v];
    assert forall j :: 0 <= j < |a| ==> a[j] == b[j];
  }

  lemma PopRing<T>(cap: nat, sq: seq<nat>, data: seq<T>, head: nat, tail: nat)
    requires Shape(cap, sq, head, tail) && |data| == cap && tail < head
    ensures var i := FixedQueueSteps.Slot(cap, tail);
      && Shape(cap, sq[i := tail + cap], head, tail + 1)
      && View(cap, data, head, tail) == [data[i]] + View(cap, data, head, tail + 1)
  {
    SlotsApart(cap, tail, tail);
    FixedQueueSteps.SlotPeriodic(cap, tail);
    var a, b := View(cap, data, head, tail), [data[FixedQueueSteps.Slot(cap, tail)]] + View(cap, data, head, tail + 1);
    assert forall j :: 0 <= j < |a| ==> a[j] == b[j];
  }

  lemma InitialRing(cap: nat)
    requires cap >= 2 && exists k: nat :: cap == Bits.Pow2(k)
    ensures Shape(cap, seq(cap, i => i), 0, 0)
  {
    forall t: nat | t < cap ensures FixedQueueSteps.Slot(cap, t) == t { FixedQueueSteps.SlotSmall(cap, t); }
  }

  lemma CapacityIsPower(l: nat, c: nat)
    requires if l == 0 then c == 2 else LeastPower(l, c)
    ensures exists k: nat :: c == Bits.Pow2(k)
    ensures c >= 2 <==> l != 1
  {
    assert Bits.Pow2(1) == 2 && Bits.Pow2(0) == 1;
    if l == 1 { assert c <= Bits.Pow2(0); }
  }

  class Fqueue<T(0)> {
    const capacity: nat
    const sequence: array<nat>
    const data: array<T>
    var head: nat
    var tail: nat

    ghost predicate Valid()
      reads this, sequence, data
    {
      Shape(capacity, sequence[..], head, tail) && data.Length == capacity && sequence as object != data as object
    }

    ghost function Contents(): (s: seq<T>)
      reads this, sequence, data
      requires Valid()
    {
      View(capacity, data[..], head, tail)
    }

    /** Any size but 1 and those above 2^63 gives a working queue. */
    constructor (l: nat)
      requires l < TWO64
      ensures l == 0 ==> capacity == 2
      ensures 1 <= l <= TWO64 / 2 ==> LeastPower(l, capacity)
      ensures l > TWO64 / 2 ==> capacity == 0
      ensures capacity >= 2 ==> Valid() && Contents() == []
      ensures fresh(sequence) && fresh(data)
    {
      var c := RoundUpToPowerOfTwo(l);
      capacity := c;
      sequence := new nat[c](i => i);
      data := new T[c];
      head, tail := 0, 0;
      new;
      if c >= 2 {
        CapacityIsPower(l, c);
        InitialRing(c);
        assert sequence[..] == seq(c, i => i);
      }
    }

    /** `pos & (capacity - 1)` */
    method Index(pos: nat) returns (i: nat)
      requires Valid()
      ensures i == FixedQueueSteps.Slot(capacity, pos)
    {
      ghost var k: nat :| capacity == Bits.Pow2(k);
      FixedQueueSteps.MaskedSlot(k, pos, pos);
      i := Bits.And(pos, capacity - 1);
    }

    /** The compare-exchange on head and what a push does after it. */
    method ClaimAndPublish(pos: nat, i: nat, val: T)
      requires Valid() && pos == head < tail + capacity && i == FixedQueueSteps.Slot(capacity, pos)
      modifies this`head, sequence, data
      ensures Valid() && Contents() == old(Contents()) + [val]
    {
      PushRing(capacity, sequence[..], data[..], head, tail, val);
      head := pos + 1;
      data[i] := val;
      sequence[i] := pos + 1;
      assert sequence[..] == old(sequence[..])[i := pos + 1];
      assert data[..] == old(data[..])[i := val];
    }

    /** push, with the given number of spurious compare-exchange failures. A full queue
        drops the value. The source's third branch, a sequence ahead of pos, needs another
        thread. */
    method Push(val: T, spurious: nat) returns (stored: bool)
      requires Valid()
      modifies this`head, sequence, data
      ensures Valid()
      ensures stored <==> |old(Contents())| < capacity
      ensures Contents() == if stored then old(Contents()) + [val] else old(Contents())
    {
      PushSlot(capacity, sequence[..], head, tail);
      var pos, failures := head, spurious;
      var i;
      while true
        invariant pos == head
        modifies {}
        decreases failures
      {
        i := Index(pos);
        var diff := sequence[i] as int - pos;
        if diff < 0 { return false; }
        if failures == 0 { break; }
        failures := failures - 1;
        pos := head;
      }
      ClaimAndPublish(pos, i, val);
      return true;
    }

    /** The compare-exchange on tail and what a pop does after it. */
    method ClaimAndRelease(pos: nat, i: nat) returns (val: T)
      requires Valid() && pos == tail < head && i == FixedQueueSteps.Slot(capacity, pos)
      modifies this`tail, sequence
      ensures Valid() && old(Contents()) == [val] + Contents()
    {
      PopRing(capacity, sequence[..], data[..], head, tail);
      tail := pos + 1;
      val := data[i];
      sequence[i] := pos + capacity;
      assert sequence[..] == old(sequence[..])[i := pos + capacity];
    }

    method Pop(spurious: nat) returns (r: Option<T>)
      requires Valid()
      modifies this`tail, sequence
      ensures Valid()
      ensures r.None? <==> old(Contents()) == []
      ensures if r.None? then Contents() == [] else old(Contents()) == [r.value] + Contents()
    {
      PopSlot(capacity, sequence[..], head, tail);
      var pos, failures := tail, spurious;
      var i;
      while true
        invariant pos == tail
        modifies {}
        decreases failures
      {
        i := Index(pos);
        var diff := sequence[i] as int - (pos + 1);
        if diff < 0 { return None; }
        if failures == 0 { break; }
        failures := failures - 1;
        pos := tail;
      }
      var val := ClaimAndRelease(pos, i);
      return Some(val);
    }
  }
}
