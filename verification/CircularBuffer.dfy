/** CircularBuffer: 16384 bytes between two 64-bit indices that grow without being clamped and
    wrap around at 2^64. */
module CircularBuffer {
  import opened Common
  import Bits

  const CAPACITY: nat := 16384
  const MASK: nat := 16383

  /** The n bytes starting at index start. */
  function View(cells: seq<byte>, start: nat, n: nat): (s: seq<byte>)
    requires |cells| == CAPACITY
    ensures |s| == n
    ensures forall i :: 0 <= i < n ==> s[i] == cells[(start + i) % CAPACITY]
  {
    seq(n, i requires 0 <= i => cells[(start + i) % CAPACITY])
  }

  /** A size_t sum of two values below 2^64. */
  function Wrapped(x: nat): (r: nat)
    requires x < 2 * TWO64
    ensures r < TWO64
    ensures r % CAPACITY == x % CAPACITY
  {
    if x < TWO64 then x else x - TWO64
  }

  /** to - from on size_t */
  function Distance(from: nat, to: nat): (n: nat)
    requires from < TWO64 && to < TWO64
    ensures n < TWO64 && Wrapped(from + n) == to
  {
    if from <= to then to - from else to + TWO64 - from
  }

  /** The i-th cell from index `from`, as the source computes it: 64-bit sum, then mask. */
  function Cell(from: nat, i: nat): (c: nat)
    requires from < TWO64 && i < TWO64
    ensures c == (from + i) % CAPACITY
  {
    MaskedCell(Wrapped(from + i));
    Bits.And(Wrapped(from + i), MASK)
  }

  lemma MaskedCell(x: nat)
    ensures Bits.And(x, MASK) == x % CAPACITY
  {
    assert Bits.Pow2(14) == CAPACITY by {
      assert Bits.Pow2(7) == 128;
      Bits.Pow2Add(7, 7);
    }
    Bits.MaskIsMod(x, 14);
  }

  /** Writing just past n stored bytes appends to them. */
  lemma ViewWrite(cells: seq<byte>, start: nat, n: nat, b: byte)
    requires |cells| == CAPACITY && n < CAPACITY
    ensures View(cells[(start + n) % CAPACITY := b], start, n + 1) == View(cells, start, n) + [b]
  {
  }

  /** Moving the start, with wrap-around, drops bytes from the front. */
  lemma ViewDrop(cells: seq<byte>, start: nat, n: nat, k: nat)
    requires |cells| == CAPACITY && k <= n && start < TWO64 && k < TWO64
    ensures View(cells, Wrapped(start + k), n - k) == View(cells, start, n)[k..]
  {
    var a, b := View(cells, Wrapped(start + k), n - k), View(cells, start, n)[k..];
    forall i | 0 <= i < n - k ensures a[i] == b[i] {
      SameResidue(Wrapped(start + k), start + k, i);
    }
  }

  lemma SameResidue(x: nat, y: nat, i: nat)
    requires x % CAPACITY == y % CAPACITY
    ensures (x + i) % CAPACITY == (y + i) % CAPACITY
  {
  }

  lemma ResidueSum(x: nat, k: nat)
    requires k < CAPACITY
    ensures (x + k) % CAPACITY == if x % CAPACITY + k < CAPACITY then x % CAPACITY + k else x % CAPACITY + k - CAPACITY
  {
  }

  lemma ResiduesDiffer(x: nat, y: nat)
    requires x < y < x + CAPACITY
    ensures x % CAPACITY != y % CAPACITY
  {
  }

  /** A region of the buffer, as WSABUF: first cell and length. */
  datatype Region = Region(first: nat, len: nat)

  /** The k-th free cell through the regions, in the order a scatter receive fills them. */
  function RegionCell(regions: seq<Region>, k: nat): (c: nat)
    requires 1 <= |regions| <= 2
  {
    if k < regions[0].len || |regions| == 1 then regions[0].first + k
    else regions[1].first + (k - regions[0].len)
  }

  function TotalLength(regions: seq<Region>): (n: nat)
  {
    (if |regions| > 0 then regions[0].len else 0) + (if |regions| > 1 then regions[1].len else 0)
  }

  /** The regions list exactly the free cells, in write order, each once. */
  ghost predicate CoversFree(regions: seq<Region>, start: nat, size: nat)
  {
    var free := CAPACITY - size;
    && |regions| <= 2 && TotalLength(regions) == free
    && (forall r :: 0 <= r < |regions| ==> regions[r].len > 0 && regions[r].first + regions[r].len <= CAPACITY)
    && (regions != [] ==> forall k: nat :: k < free ==> RegionCell(regions, k) == (start + size + k) % CAPACITY)
  }

  /** No two places of the regions are the same cell, and none holds a stored byte. */
  lemma RegionsDisjoint(regions: seq<Region>, start: nat, size: nat, i: nat, j: nat, k: nat)
    requires size <= CAPACITY && regions != [] && CoversFree(regions, start, size)
    requires j < k < CAPACITY - size
    ensures RegionCell(regions, j) != RegionCell(regions, k)
    ensures i < size ==> RegionCell(regions, k) != (start + i) % CAPACITY
  {
    assert RegionCell(regions, j) == (start + size + j) % CAPACITY;
    assert RegionCell(regions, k) == (start + size + k) % CAPACITY;
    ResiduesDiffer(start + size + j, start + size + k);
    if i < size { ResiduesDiffer(start + i, start + size + k); }
  }

  class CircularBuffer {
    const buffer: array<byte>
    var stidx: nat
    var endidx: nat

    ghost predicate Valid()
      reads this
    {
      buffer.Length == CAPACITY && stidx < TWO64 && endidx < TWO64 && Distance(stidx, endidx) <= CAPACITY
    }

    function Size(): (n: nat)
      requires Valid()
      reads this
      ensures n <= CAPACITY
    {
      Distance(stidx, endidx)
    }

    function FreeSpace(): (n: nat)
      requires Valid()
      reads this
      ensures n + Size() == CAPACITY
    {
      CAPACITY - Size()
    }

    ghost function Contents(): (s: seq<byte>)
      requires Valid()
      reads this, buffer
    {
      View(buffer[..], stidx, Size())
    }

    constructor ()
      ensures Valid() && Contents() == [] && fresh(buffer)
    {
      buffer := new byte[CAPACITY](i => 0);
      stidx, endidx := 0, 0;
    }

    /** Writes one byte to the cell i places past the end. */
    method Put(i: nat, b: byte)
      requires Valid() && Size() + i < CAPACITY
      modifies buffer
      ensures View(buffer[..], stidx, Size() + i + 1) == old(View(buffer[..], stidx, Size() + i)) + [b]
    {
      ViewWrite(buffer[..], stidx, Size() + i, b);
      SameResidue(endidx, stidx + Size(), i);
      ghost var before := buffer[..];
      buffer[Cell(endidx, i)] := b;
      assert buffer[..] == before[(stidx + Size() + i) % CAPACITY := b];
    }

    method Insert(bytes: seq<byte>) returns (ok: bool)
      requires Valid()
      modifies this`endidx, buffer
      ensures Valid()
      ensures ok <==> |old(Contents())| + |bytes| <= CAPACITY
      ensures Contents() == if ok then old(Contents()) + bytes else old(Contents())
    {
      if |bytes| > FreeSpace() { return false; }
      for i := 0 to |bytes|
        invariant View(buffer[..], stidx, Size() + i) == old(Contents()) + bytes[..i]
        modifies buffer
      {
        Put(i, bytes[i]);
        assert bytes[..i + 1] == bytes[..i] + [bytes[i]];
      }
      assert bytes[..|bytes|] == bytes;
      endidx := Wrapped(endidx + |bytes|);
      return true;
    }

    method Erase(length: nat) returns (ok: bool)
      requires Valid()
      modifies this`stidx
      ensures Valid()
      ensures ok <==> length <= |old(Contents())|
      ensures Contents() == if ok then old(Contents())[length..] else old(Contents())
    {
      if length > Size() { return false; }
      ViewDrop(buffer[..], stidx, Size(), length);
      stidx := Wrapped(stidx + length);
      return true;
    }

    /** Copies the first bytes out and leaves the buffer as it is. */
    method Copy(length: nat) returns (ok: bool, dest: seq<byte>)
      requires Valid()
      ensures ok <==> length <= |Contents()|
      ensures ok ==> dest == Contents()[..length]
    {
      dest := [];
      if Size() < length { return false, dest; }
      for i := 0 to length
        invariant dest == Contents()[..i]
      {
        dest := dest + [buffer[Cell(stidx, i)]];
      }
      return true, dest;
    }

    /** Copies the first bytes out and advances past them. */
    method Consume(length: nat) returns (ok: bool, dest: seq<byte>)
      requires Valid()
      modifies this`stidx
      ensures Valid()
      ensures ok <==> length <= |old(Contents())|
      ensures ok ==> old(Contents()) == dest + Contents() && |dest| == length
      ensures !ok ==> Contents() == old(Contents())
    {
      ok, dest := Copy(length);
      if ok {
        ViewDrop(buffer[..], stidx, Size(), length);
        stidx := Wrapped(stidx + length);
      }
    }

    /** The free space as at most two regions. */
    method GetWriteBuffers() returns (bufs: seq<Region>)
      requires Valid()
      ensures bufs == [] <==> |Contents()| == CAPACITY
      ensures CoversFree(bufs, stidx, |Contents()|)
    {
      if FreeSpace() == 0 { return []; }
      var wPhys, rPhys := Cell(endidx, 0), Cell(stidx, 0);
      SameResidue(endidx, stidx + Size(), 0);
      assert wPhys == (stidx + Size()) % CAPACITY && rPhys == stidx % CAPACITY;
      if wPhys >= rPhys {
        var tailSpace := CAPACITY - wPhys;
        bufs := [Region(wPhys, tailSpace)];
        if rPhys > 0 { bufs := bufs + [Region(0, rPhys)]; }
      } else {
        bufs := [Region(wPhys, rPhys - wPhys)];
      }
      RegionsCover(bufs, stidx, Size());
    }

    /** A scatter receive: the bytes go into the regions in order. */
    method Fill(bufs: seq<Region>, bytes: seq<byte>)
      requires Valid() && bufs != [] && CoversFree(bufs, stidx, Size()) && |bytes| <= FreeSpace()
      modifies buffer
      ensures View(buffer[..], stidx, Size() + |bytes|) == old(Contents()) + bytes
    {
      for i := 0 to |bytes|
        invariant View(buffer[..], stidx, Size() + i) == old(Contents()) + bytes[..i]
      {
        ViewWrite(buffer[..], stidx, Size() + i, bytes[i]);
        ghost var before := buffer[..];
        buffer[RegionCell(bufs, i)] := bytes[i];
        assert buffer[..] == before[(stidx + Size() + i) % CAPACITY := bytes[i]];
        assert bytes[..i + 1] == bytes[..i] + [bytes[i]];
      }
      assert bytes[..|bytes|] == bytes;
    }

    method CommitWrite(length: nat)
      requires Valid()
      modifies this`endidx
      ensures Valid()
      ensures length <= old(FreeSpace()) ==> Contents() == View(buffer[..], stidx, old(Size()) + length)
      ensures length > old(FreeSpace()) ==> Contents() == old(Contents())
    {
      if length > FreeSpace() { return; }
      endidx := Wrapped(endidx + length);
    }

    /** Getting the write regions, receiving into them and committing is the same as Insert. */
    method Receive(bytes: seq<byte>)
      requires Valid() && 0 < |bytes| <= FreeSpace()
      modifies this`endidx, buffer
      ensures Valid() && Contents() == old(Contents()) + bytes
    {
      var bufs := GetWriteBuffers();
      Fill(bufs, bytes);
      CommitWrite(|bytes|);
    }
  }

  /** The two shapes of free space: after the data up to the end and then from 0, or the gap
      before wrapped data. */
  lemma RegionsCover(bufs: seq<Region>, start: nat, size: nat)
    requires size < CAPACITY
    requires var w, r := (start + size) % CAPACITY, start % CAPACITY;
      bufs == if w < r then [Region(w, r - w)]
              else if r > 0 then [Region(w, CAPACITY - w), Region(0, r)]
              else [Region(w, CAPACITY - w)]
    ensures CoversFree(bufs, start, size)
  {
    ResidueSum(start, size);
    assert TotalLength(bufs) == CAPACITY - size;
    forall k: nat | k < CAPACITY - size ensures RegionCell(bufs, k) == (start + size + k) % CAPACITY {
      ResidueSum(start + size, k);
    }
  }
}
