/** How a file is cut into rounds and chunks, on both sides of an upload. */
module UploadPieces {
  import opened Common

  const CHUNK: nat := 3840
  const PER_ROUND: nat := 1024
  const ROUND: nat := 3932160   // CHUNK * PER_ROUND

  type File = seq<byte>

  /** Round boundaries, where an upload may resume. */
  predicate Boundary(file: File, n: nat)
  {
    n == |file| || (n < |file| && n % ROUND == 0)
  }

  /** Number of bytes in the round that starts at base. */
  function RoundLength(file: File, base: nat): (n: nat)
    requires base < |file|
  {
    if |file| - base < ROUND then |file| - base else ROUND
  }

  /** Number of chunks in the round that starts at base. */
  function ChunkCount(file: File, base: nat): (n: nat)
    requires base < |file|
    ensures 1 <= n <= PER_ROUND && CHUNK * (n - 1) < RoundLength(file, base) <= CHUNK * n
  {
    (RoundLength(file, base) + CHUNK - 1) / CHUNK
  }

  /** Where chunk i of the round ends, as a distance from base. */
  function ChunkEnd(file: File, base: nat, i: nat): (n: nat)
    requires base < |file| && i < ChunkCount(file, base)
    ensures CHUNK * i < n <= CHUNK * i + CHUNK && n <= RoundLength(file, base)
    ensures i + 1 == ChunkCount(file, base) ==> n == RoundLength(file, base)
    ensures i + 1 < ChunkCount(file, base) ==> n == CHUNK * (i + 1)
  {
    if CHUNK * (i + 1) < RoundLength(file, base) then CHUNK * (i + 1) else RoundLength(file, base)
  }

  /** Chunk i of the round that starts at base. */
  function Piece(file: File, base: nat, i: nat): (p: seq<byte>)
    requires base < |file| && i < ChunkCount(file, base)
    ensures 0 < |p| <= CHUNK
  {
    file[base + CHUNK * i..base + ChunkEnd(file, base, i)]
  }

  /** The receiver's slot for a chunk is the sender's index of it. */
  lemma SlotIsIndex(base: nat, i: nat)
    requires base % ROUND == 0 && i < PER_ROUND
    ensures (base + CHUNK * i) / CHUNK % PER_ROUND == i
  {
    var k := base / ROUND;
    assert base == CHUNK * (PER_ROUND * k);
    assert (base + CHUNK * i) / CHUNK == PER_ROUND * k + i;
  }

  /** Every slot is empty or holds its chunk of the round. */
  ghost predicate Slots(file: File, base: nat, buffer: seq<seq<byte>>)
    requires base < |file|
  {
    && |buffer| == PER_ROUND
    && forall i :: 0 <= i < PER_ROUND ==> buffer[i] == [] || (i < ChunkCount(file, base) && buffer[i] == Piece(file, base, i))
  }

  /** The indices below n of the empty slots, in order. */
  function Missing(buffer: seq<seq<byte>>, n: nat): (m: seq<nat>)
    requires n <= |buffer|
    ensures forall i :: 0 <= i < n ==> (i in m <==> buffer[i] == [])
    ensures forall i :: i in m ==> i < n
    ensures forall i, j :: 0 <= i < j < |m| ==> m[i] < m[j]
    ensures |m| <= n
  {
    if n == 0 then [] else
    var m := Missing(buffer, n - 1);
    assert forall k :: 0 <= k < |m| ==> m[k] in m;
    m + (if buffer[n - 1] == [] then [n - 1] else [])
  }

  lemma {:induction false} NoneMissing(buffer: seq<seq<byte>>, n: nat)
    requires n <= |buffer| && forall i :: 0 <= i < n ==> buffer[i] != []
    ensures Missing(buffer, n) == []
  {
    if n == 0 {
    } else {
      NoneMissing(buffer, n - 1);
    }
  }

  lemma {:induction false} FullPrefix(file: File, base: nat, buffer: seq<seq<byte>>, i: nat)
    requires base < |file| && Slots(file, base, buffer) && i < ChunkCount(file, base)
    requires forall j :: 0 <= j < ChunkCount(file, base) ==> buffer[j] != []
    ensures Flatten(buffer[..i + 1]) == file[base..base + ChunkEnd(file, base, i)]
  {
    assert buffer[..i + 1] == buffer[..i] + [buffer[i]];
    FlattenAppend(buffer[..i], [buffer[i]]);
    FlattenCons(buffer[i], []);
    assert [buffer[i]] + [] == [buffer[i]];
    assert Flatten(buffer[..i + 1]) == Flatten(buffer[..i]) + Piece(file, base, i);
    if i == 0 {
      assert buffer[..0] == [];
      assert Flatten(buffer[..0]) + Piece(file, base, 0) == Piece(file, base, 0);
    } else {
      FullPrefix(file, base, buffer, i - 1);
      assert buffer[..i - 1 + 1] == buffer[..i] && ChunkEnd(file, base, i - 1) == CHUNK * i;
      SlicesJoin(file, base, base + CHUNK * i, base + ChunkEnd(file, base, i));
    }
  }

  lemma SlicesJoin(s: seq<byte>, a: nat, b: nat, c: nat)
    requires a <= b <= c <= |s|
    ensures s[a..b] + s[b..c] == s[a..c]
  {
  }

  lemma {:induction false} FlattenEmpties(parts: seq<seq<byte>>)
    requires forall i :: 0 <= i < |parts| ==> parts[i] == []
    ensures Flatten(parts) == []
  {
    if parts == [] {
    } else {
      FlattenEmpties(parts[1..]);
    }
  }

  /** A round with no chunk missing is written as exactly the bytes of the file it stands for. */
  lemma CompleteRound(file: File, base: nat, buffer: seq<seq<byte>>)
    requires base < |file| && Slots(file, base, buffer) && Missing(buffer, ChunkCount(file, base)) == []
    ensures Flatten(buffer) == file[base..base + RoundLength(file, base)]
  {
    var n := ChunkCount(file, base);
    FullPrefix(file, base, buffer, n - 1);
    assert buffer == buffer[..n] + buffer[n..];
    FlattenAppend(buffer[..n], buffer[n..]);
    FlattenEmpties(buffer[n..]);
  }

  lemma AppendRound(file: File, base: nat)
    requires base < |file| && base % ROUND == 0
    ensures file[..base] + file[base..base + RoundLength(file, base)] == file[..base + RoundLength(file, base)]
    ensures Boundary(file, base + RoundLength(file, base))
  {
  }
}
