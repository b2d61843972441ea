/** PacketPool: a queue of free packet indices with an in-use flag per packet. */
module PacketPool {
  import opened Common

  const POOL_SIZE: nat := 25000

  class PacketPool {
    var availableIdx: seq<nat>
    var inUse: seq<bool>
    /** what the packets hold, [] standing for a wiped packet */
    var contents: seq<seq<byte>>
    var currentPacketUse: nat
    var peak: nat
    /** the number of packets in use after each operation so far */
    ghost var counts: seq<nat>

    ghost predicate Valid()
      reads this
    {
      && |inUse| == |contents| == POOL_SIZE
      && Partitions(availableIdx, inUse)
      && currentPacketUse == InUseCount(inUse)
      && counts != [] && counts[|counts| - 1] == currentPacketUse
      && peak in counts && (forall c :: c in counts ==> c <= peak)
    }

    constructor ()
      ensures Valid() && currentPacketUse == 0 && peak == 0
      ensures forall id: nat :: id < POOL_SIZE ==> !inUse[id]
    {
      var idx: seq<nat> := [];
      for i := 0 to POOL_SIZE
        invariant |idx| == i && forall j :: 0 <= j < i ==> idx[j] == j
      {
        idx := idx + [i];
      }
      availableIdx := idx;
      inUse, contents := seq(POOL_SIZE, i => false), seq(POOL_SIZE, i => []);
      currentPacketUse, peak := 0, 0;
      counts := [0];
      new;
      NoneInUse(POOL_SIZE);
      forall id: nat | id < POOL_SIZE ensures id in availableIdx { assert availableIdx[id] == id; }
    }

    /** Pops indices until one is not in use. The source needs one to be there; in a valid
        pool it is the first, so the loop ends on its first pass. */
    method NextFree() returns (id: nat)
      requires |inUse| == POOL_SIZE
      requires forall i :: 0 <= i < |availableIdx| ==> availableIdx[i] < POOL_SIZE
      requires exists i :: 0 <= i < |availableIdx| && !inUse[availableIdx[i]]
      modifies this`availableIdx
      ensures id < POOL_SIZE && !inUse[id]
      ensures exists i :: (
        && 0 <= i < |old(availableIdx)| && id == old(availableIdx)[i]
        && availableIdx == old(availableIdx)[i + 1..]
        && forall j :: 0 <= j < i ==> inUse[old(availableIdx)[j]])
    {
      ghost var first: nat :| first < |availableIdx| && !inUse[availableIdx[first]];
      ghost var i := 0;
      while true
        invariant 0 <= i <= first && availableIdx == old(availableIdx)[i..]
        invariant forall j :: 0 <= j < i ==> inUse[old(availableIdx)[j]]
        decreases first - i
      {
        id := availableIdx[0];
        availableIdx := availableIdx[1..];
        if !inUse[id] { return; }
        i := i + 1;
      }
    }

    /** borrowPacket, with the given number of spurious failures while raising the peak.
        None is the null pointer. */
    method BorrowPacket(spurious: nat) returns (r: Option<nat>)
      requires Valid()
      modifies this
      ensures Valid() && contents == old(contents)
      ensures r.None? <==> old(availableIdx) == []
      ensures r.None? ==> availableIdx == [] && inUse == old(inUse) && peak == old(peak)
      ensures r.Some? ==>
        && r.value == old(availableIdx)[0] && !old(inUse)[r.value]
        && availableIdx == old(availableIdx)[1..]
        && inUse == old(inUse)[r.value := true]
        && currentPacketUse == old(currentPacketUse) + 1
        && peak == if currentPacketUse > old(peak) then currentPacketUse else old(peak)
    {
      if availableIdx == [] { return None; }
      BorrowPartitions(availableIdx, inUse);
      var id := NextFree();
      assert id == old(availableIdx)[0];
      InUseCountUpdate(inUse, id);
      inUse := inUse[id := true];
      var newCount := currentPacketUse + 1;
      currentPacketUse := newCount;
      var prevPeak, failures := peak, spurious;
      while newCount > prevPeak
        invariant peak == old(peak) == prevPeak
        modifies this`peak
        decreases failures
      {
        if failures == 0 { peak := newCount; break; }
        failures := failures - 1;
        prevPeak := peak;
      }
      counts := counts + [newCount];
      return Some(id);
    }

    /** returnPacket of the packet with this id; None is the null pointer. The packet is wiped before
        the test whether it is in use, so a repeated return wipes it too; an unknown id or a packet
        that is not in use leaves everything else as it was. */
    method ReturnPacket(p: Option<nat>)
      requires Valid()
      modifies this
      ensures Valid() && peak == old(peak)
      ensures contents == if p.Some? && p.value < POOL_SIZE then old(contents)[p.value := []] else old(contents)
      ensures if p.Some? && p.value < POOL_SIZE && old(inUse)[p.value] then
          && availableIdx == old(availableIdx) + [p.value]
          && inUse == old(inUse)[p.value := false]
          && currentPacketUse == old(currentPacketUse) - 1
        else
          && availableIdx == old(availableIdx) && inUse == old(inUse)
          && currentPacketUse == old(currentPacketUse)
    {
      if p.None? { return; }
      var id := p.value;
      if id >= POOL_SIZE { return; }
      contents := contents[id := []];
      if !inUse[id] { return; }
      ReturnPartitions(availableIdx, inUse, id);
      InUseCountUpdate(inUse, id);
      assert currentPacketUse in counts;
      availableIdx := availableIdx + [id];
      inUse := inUse[id := false];
      currentPacketUse := currentPacketUse - 1;
      counts := counts + [currentPacketUse];
    }
  }
}
