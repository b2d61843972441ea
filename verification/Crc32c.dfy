/** The checksum of protocol/CRC32C.cpp: its loops, how checksums of pieces compose, and
    which corruptions it always detects.

    Everything but the last theorem holds for any 256-entry table. The software path uses
    SOFTWARE_TABLE; a byte step of the processor instruction is a table step as well, with
    its own table. */
module Crc32c {
  import opened Common
  import Bits
  import Crc32cTable

  type Table = t: seq<word> | |t| == 256 witness seq(256, i => 0)

  /** ~c */
  function Not(c: word): (r: word)
    ensures r + c == TWO32 - 1
  {
    TWO32 - 1 - c
  }

  lemma LowByte(crc: word, b: byte)
    ensures Bits.And(Bits.Xor(crc, b), 0xFF) == Bits.Xor(crc % 256, b) < 256
  {
    assert Bits.Pow2(8) == 256 by { Bits.WordSizes(); }
    assert Bits.Low(crc, 8) == crc % 256 by { Bits.LowIsMod(crc, 8); }
    Bits.MaskedXor(crc, b, 8);
  }

  /** (crc ^ b) & 0xFF */
  function Index(crc: word, b: byte): (i: byte)
    ensures i == Bits.Xor(crc % 256, b)
  {
    LowByte(crc, b);
    Bits.And(Bits.Xor(crc, b), 0xFF)
  }

  /** table[(crc ^ b) & 0xFF] ^ (crc >> 8) */
  function Step(tab: Table, crc: word, b: byte): (r: word)
  {
    Bits.WordSizes();
    Bits.ShrBound(crc, 8);
    Bits.XorBound(tab[Index(crc, b)], Bits.Shr(crc, 8), 32);
    Bits.Xor(tab[Index(crc, b)], Bits.Shr(crc, 8))
  }

  /** The running value after all bytes of data. */
  function Absorb(tab: Table, data: seq<byte>, crc: word): (r: word)
  {
    if data == [] then crc
    else Step(tab, Absorb(tab, data[..|data| - 1], crc), data[|data| - 1])
  }

  /** The checksum of data continued from crc. */
  function Checksum(tab: Table, data: seq<byte>, crc: word): (r: word)
  {
    Not(Absorb(tab, data, Not(crc)))
  }

  // ---- What the checksum is, byte by byte ----

  /** No bytes leave the checksum as it is. */
  lemma ChecksumEmpty(tab: Table, crc: word)
    ensures Checksum(tab, [], crc) == crc
  {
  }

  /** One more byte: the complement of the checksum is shifted down by a byte, and the table entry is
      chosen by its low byte and the new one. */
  lemma ChecksumSnoc(tab: Table, data: seq<byte>, b: byte, crc: word)
    ensures var x := 0xFFFF_FFFF - Checksum(tab, data, crc);
      && Bits.Xor(x % 256, b) < 256
      && 0xFFFF_FFFF - Checksum(tab, data + [b], crc) == Bits.Xor(tab[Bits.Xor(x % 256, b)], x / 256)
  {
    var x := Absorb(tab, data, Not(crc));
    assert (data + [b])[..|data|] == data;
    assert x / 256 == Bits.Shr(x, 8) by { assert Bits.Pow2(8) == 256 by { Bits.WordSizes(); } Bits.LowIsMod(x, 8); }
    LowByte(x, b);
  }

  lemma LastEntryFolded()
    ensures Bits.Xor(0x3917_6ADC, 0x00FF_FFFF) == 0x39E8_9523
  {
    Bits.WordSizes();
    var entry := 0x3917_6ADC;
    Bits.XorOnes(entry, 24);
    Bits.LowIsMod(entry, 24);
  }

  lemma ZeroByte(tab: Table)
    requires tab[255] == 0x3917_6ADC
    ensures Checksum(tab, [0], 0) == 0xC617_6ADC
  {
    ChecksumEmpty(tab, 0);
    ChecksumSnoc(tab, [], 0, 0);
    assert [] + [0 as byte] == [0];
    Bits.XorZero(255);
    LastEntryFolded();
  }

  /** The checksum of a single zero byte over the source's table. */
  lemma ChecksumOfZero()
    ensures Checksum(SoftwareTable(), [0], 0) == 0xC617_6ADC
  {
    ZeroByte(SoftwareTable());
  }

  // ---- Composition ----

  lemma {:induction false} AbsorbAppend(tab: Table, a: seq<byte>, b: seq<byte>, crc: word)
    ensures Absorb(tab, a + b, crc) == Absorb(tab, b, Absorb(tab, a, crc))
  {
    if b == [] {
      assert a + b == a;
    } else {
      assert (a + b)[..|a + b| - 1] == a + b[..|b| - 1];
      AbsorbAppend(tab, a, b[..|b| - 1], crc);
    }
  }

  /** The checksum of a concatenation is the checksum of the second part continued from the
      checksum of the first. */
  lemma ChecksumAppend(tab: Table, a: seq<byte>, b: seq<byte>, crc: word)
    ensures Checksum(tab, a + b, crc) == Checksum(tab, b, Checksum(tab, a, crc))
  {
    AbsorbAppend(tab, a, b, Not(crc));
  }

  // ---- The loops ----

  lemma NextByte(tab: Table, data: seq<byte>, i: nat, crc: word)
    requires i < |data|
    ensures Absorb(tab, data[..i + 1], crc) == Step(tab, Absorb(tab, data[..i], crc), data[i])
  {
    assert data[..i + 1][..i] == data[..i];
  }

  /** The byte loop of CRC32C::compute. */
  method ComputeSoftware(tab: Table, data: seq<byte>, crc: word) returns (r: word)
    ensures r == Checksum(tab, data, crc)
  {
    r := Not(crc);
    for i := 0 to |data|
      invariant r == Absorb(tab, data[..i], Not(crc))
    {
      NextByte(tab, data, i, Not(crc));
      r := Step(tab, r, data[i]);
    }
    assert data[..|data|] == data;
    r := Not(r);
  }

  /** _mm_crc32_u64 taken as eight byte steps, lowest byte first. */
  method WordStep(tab: Table, crc: word, p: seq<byte>) returns (r: word)
    requires |p| == 8
    ensures r == Absorb(tab, p, crc)
  {
    r := crc;
    for i := 0 to 8
      invariant r == Absorb(tab, p[..i], crc)
    {
      NextByte(tab, p, i, crc);
      r := Step(tab, r, p[i]);
    }
    assert p[..8] == p;
  }

  lemma NextBytes(tab: Table, data: seq<byte>, i: nat, n: nat, crc: word)
    requires i + n <= |data|
    ensures Absorb(tab, data[..i + n], crc) == Absorb(tab, data[i..i + n], Absorb(tab, data[..i], crc))
  {
    SliceJoins(data, i, n);
    AbsorbAppend(tab, data[..i], data[i..i + n], crc);
  }

  lemma SliceJoins(data: seq<byte>, i: nat, n: nat)
    requires i + n <= |data|
    ensures data[..i] + data[i..i + n] == data[..i + n]
  {
  }

  /** computeHardware: whole 8-byte words first, then the remaining bytes one by one. */
  method ComputeHardware(tab: Table, data: seq<byte>, crc: word) returns (r: word)
    ensures r == Checksum(tab, data, crc)
  {
    r := Not(crc);
    var p, length := 0, |data|;
    while length >= 8
      invariant 0 <= p && 0 <= length && p + length == |data|
      invariant r == Absorb(tab, data[..p], Not(crc))
    {
      NextBytes(tab, data, p, 8, Not(crc));
      r := WordStep(tab, r, data[p..p + 8]);
      p := p + 8;
      length := length - 8;
    }
    while length > 0
      invariant 0 <= p && 0 <= length && p + length == |data|
      invariant r == Absorb(tab, data[..p], Not(crc))
    {
      NextByte(tab, data, p, Not(crc));
      r := Step(tab, r, data[p]);
      p := p + 1;
      length := length - 1;
    }
    assert data[..p] == data;
    r := Not(r);
  }

  /** CRC32C::compute: the word loop when the processor supports it, else the byte loop. */
  method Compute(hardware: bool, tab: Table, data: seq<byte>, crc: word) returns (r: word)
    ensures r == Checksum(tab, data, crc)
  {
    if hardware {
      r := ComputeHardware(tab, data, crc);
    } else {
      r := ComputeSoftware(tab, data, crc);
    }
  }

  const FILE_BLOCK: nat := 1024 * 1024

  lemma NextBlock(tab: Table, file: seq<byte>, at: nat, read: nat)
    requires at + read <= |file|
    ensures Checksum(tab, file[..at + read], 0) == Checksum(tab, file[at..at + read], Checksum(tab, file[..at], 0))
  {
    SliceJoins(file, at, read);
    ChecksumAppend(tab, file[..at], file[at..at + read], 0);
  }

  /** computeFileCRC: block by block, which is one pass over the whole file. */
  method ComputeFileCrc(hardware: bool, tab: Table, file: seq<byte>) returns (crc: word)
    ensures crc == Checksum(tab, file, 0)
  {
    crc := 0;
    var at := 0;
    while at < |file|
      invariant 0 <= at <= |file|
      invariant crc == Checksum(tab, file[..at], 0)
    {
      var read := if |file| - at < FILE_BLOCK then |file| - at else FILE_BLOCK;
      NextBlock(tab, file, at, read);
      crc := Compute(hardware, tab, file[at..at + read], crc);
      at := at + read;
    }
    assert file[..at] == file;
  }

  // ---- Detection ----

  /** Entries with the same top byte are at the same index. */
  ghost predicate TopBytesDistinct(tab: Table)
  {
    forall i: byte, j: byte :: Bits.Shr(tab[i], 24) == Bits.Shr(tab[j], 24) ==> i == j
  }

  lemma ShrShr(n: nat, a: nat, b: nat)
    ensures Bits.Shr(Bits.Shr(n, a), b) == Bits.Shr(n, a + b)
    decreases a
  {
    if a > 0 { ShrShr(n / 2, a - 1, b); }
  }

  lemma ShrSmall(n: nat, k: nat)
    requires n < Bits.Pow2(k)
    ensures Bits.Shr(n, k) == 0
    decreases k
  {
    if k > 0 { ShrSmall(n / 2, k - 1); }
  }

  /** The top byte of a step's result is the top byte of the table entry it used. */
  lemma StepTop(tab: Table, c: word, b: byte)
    ensures Bits.Shr(Step(tab, c, b), 24) == Bits.Shr(tab[Index(c, b)], 24)
  {
    var e := tab[Index(c, b)];
    assert Bits.Shr(Bits.Shr(c, 8), 24) == 0 by {
      Bits.WordSizes();
      ShrShr(c, 8, 24);
      ShrSmall(c, 32);
    }
    Bits.XorShr(e, Bits.Shr(c, 8), 24);
    Bits.XorZero(Bits.Shr(e, 24));
  }

  /** xor with the same word on the left can be cancelled */
  lemma XorLeftCancel(e: nat, x: nat, y: nat)
    requires Bits.Xor(e, x) == Bits.Xor(e, y)
    ensures x == y
  {
    Bits.XorComm(e, x);
    Bits.XorComm(e, y);
    Bits.XorCancel(x, e);
    Bits.XorCancel(y, e);
  }

  /** Going backwards over one byte: if two results agree above bit k, the two steps used the
      same entry and their inputs agree above bit k + 8. */
  lemma StepBack(tab: Table, c: word, b: byte, c': word, b': byte, k: nat)
    requires TopBytesDistinct(tab) && k <= 24
    requires Bits.Shr(Step(tab, c, b), k) == Bits.Shr(Step(tab, c', b'), k)
    ensures Index(c, b) == Index(c', b')
    ensures Bits.Shr(c, k + 8) == Bits.Shr(c', k + 8)
  {
    assert Index(c, b) == Index(c', b') by {
      ShrShr(Step(tab, c, b), k, 24 - k);
      ShrShr(Step(tab, c', b'), k, 24 - k);
      StepTop(tab, c, b);
      StepTop(tab, c', b');
    }
    var e := tab[Index(c, b)];
    Bits.XorShr(e, Bits.Shr(c, 8), k);
    Bits.XorShr(e, Bits.Shr(c', 8), k);
    XorLeftCancel(Bits.Shr(e, k), Bits.Shr(Bits.Shr(c, 8), k), Bits.Shr(Bits.Shr(c', 8), k));
    ShrShr(c, 8, k);
    ShrShr(c', 8, k);
  }

  lemma IndexInjective(c: word, b: byte, b': byte)
    requires Index(c, b) == Index(c, b')
    ensures b == b'
  {
    XorLeftCancel(c % 256, b, b');
  }

  lemma LastByteBack(tab: Table, p: word, b: byte, q: word, b': byte, k: nat)
    requires TopBytesDistinct(tab) && k <= 24
    requires Bits.Shr(Step(tab, p, b), k) == Bits.Shr(Step(tab, q, b'), k)
    ensures Bits.Shr(p, k + 8) == Bits.Shr(q, k + 8)
    ensures p == q ==> b == b'
  {
    StepBack(tab, p, b, q, b', k);
    if p == q { IndexInjective(p, b, b'); }
  }

  /** Two windows of at most four bytes absorbed from the same value give different results
      unless the windows are equal; agreement above bit k already forces it while the window
      and k fit in 32 bits. */
  lemma {:induction false} WindowBack(tab: Table, c: word, x: seq<byte>, y: seq<byte>, k: nat)
    requires TopBytesDistinct(tab) && |x| == |y| && k + 8 * |x| <= 32
    requires Bits.Shr(Absorb(tab, x, c), k) == Bits.Shr(Absorb(tab, y, c), k)
    ensures x == y
    decreases |x|
  {
    if x == [] {
    } else {
      var n := |x| - 1;
      var p, q := Absorb(tab, x[..n], c), Absorb(tab, y[..n], c);
      assert Bits.Shr(Step(tab, p, x[n]), k) == Bits.Shr(Step(tab, q, y[n]), k);
      LastByteBack(tab, p, x[n], q, y[n], k);
      WindowBack(tab, c, x[..n], y[..n], k + 8);
      SameToTheLast(x, y);
    }
  }

  lemma SameToTheLast(x: seq<byte>, y: seq<byte>)
    requires |x| == |y| > 0 && x[..|x| - 1] == y[..|y| - 1] && x[|x| - 1] == y[|y| - 1]
    ensures x == y
  {
    assert x == x[..|x| - 1] + [x[|x| - 1]];
    assert y == y[..|y| - 1] + [y[|y| - 1]];
  }

  lemma SameHighSameIndex(c: word, c': word, b: byte)
    requires Index(c, b) == Index(c', b) && Bits.Shr(c, 8) == Bits.Shr(c', 8)
    ensures c == c'
  {
    assert c % 256 == c' % 256 by {
      Bits.XorCancel(c % 256, b);
      Bits.XorCancel(c' % 256, b);
    }
    assert c / 256 == c' / 256 by {
      Bits.WordSizes();
      Bits.LowIsMod(c, 8);
      Bits.LowIsMod(c', 8);
    }
  }

  lemma StepInjective(tab: Table, c: word, c': word, b: byte)
    requires TopBytesDistinct(tab) && c != c'
    ensures Step(tab, c, b) != Step(tab, c', b)
  {
    if Step(tab, c, b) == Step(tab, c', b) {
      StepBack(tab, c, b, c', b, 0);
      SameHighSameIndex(c, c', b);
    }
  }

  /** Absorbing a byte is injective in the running value, so a difference never goes away. */
  lemma {:induction false} DifferenceStays(tab: Table, c: word, c': word, data: seq<byte>)
    requires TopBytesDistinct(tab) && c != c'
    ensures Absorb(tab, data, c) != Absorb(tab, data, c')
  {
    if data == [] {
    } else {
      var n := |data| - 1;
      DifferenceStays(tab, c, c', data[..n]);
      StepInjective(tab, Absorb(tab, data[..n], c), Absorb(tab, data[..n], c'), data[n]);
    }
  }

  /** a and b have the same length and differ only within four consecutive bytes. */
  ghost predicate DifferInBurst(a: seq<byte>, b: seq<byte>, start: nat)
  {
    && |a| == |b| && a != b
    && forall i :: 0 <= i < |a| && !(start <= i < start + 4) ==> a[i] == b[i]
  }

  /** The same bytes before and after two windows that differ. */
  lemma WindowsDiffer(tab: Table, pre: seq<byte>, x: seq<byte>, y: seq<byte>, post: seq<byte>, c: word)
    requires TopBytesDistinct(tab) && |x| == |y| <= 4 && x != y
    ensures Absorb(tab, pre + x + post, c) != Absorb(tab, pre + y + post, c)
  {
    var mid := Absorb(tab, pre, c);
    AbsorbAppend(tab, pre, x, c);
    AbsorbAppend(tab, pre, y, c);
    AbsorbAppend(tab, pre + x, post, c);
    AbsorbAppend(tab, pre + y, post, c);
    if Absorb(tab, x, mid) == Absorb(tab, y, mid) { WindowBack(tab, mid, x, y, 0); }
    DifferenceStays(tab, Absorb(tab, x, mid), Absorb(tab, y, mid), post);
  }

  /** Two buffers of equal length that differ only within four consecutive bytes have different
      checksums, whatever the starting value, if the table's top bytes are distinct. */
  lemma BurstDetected(tab: Table, a: seq<byte>, b: seq<byte>, start: nat, crc: word)
    requires TopBytesDistinct(tab) && DifferInBurst(a, b, start)
    ensures Checksum(tab, a, crc) != Checksum(tab, b, crc)
  {
    var low := if start < |a| then start else |a|;
    var high := if start + 4 < |a| then start + 4 else |a|;
    var x, y := a[low..high], b[low..high];
    assert b[..low] == a[..low] && b[high..] == a[high..];
    assert a == a[..low] + x + a[high..] && b == a[..low] + y + a[high..];
    WindowsDiffer(tab, a[..low], x, y, a[high..], Not(crc));
  }

  // ---- The table of the software path ----

  function SoftwareTable(): (t: Table)
  {
    seq(256, i requires 0 <= i < 256 => EntryWord(i))
  }

  function EntryWord(i: byte): (w: word)
  {
    Crc32cTable.AllDecided(i);
    Crc32cTable.Entry(i)
  }

  /** The table of the source satisfies what burst detection needs. */
  lemma SoftwareTableDistinct()
    ensures TopBytesDistinct(SoftwareTable())
  {
    var tab := SoftwareTable();
    forall i: byte, j: byte | Bits.Shr(tab[i], 24) == Bits.Shr(tab[j], 24) ensures i == j {
      Bits.WordSizes();
      Bits.LowIsMod(tab[i], 24);
      Bits.LowIsMod(tab[j], 24);
      Crc32cTable.TopBytesDistinct(i, j);
    }
  }
}
