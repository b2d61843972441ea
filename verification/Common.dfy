/** Types shared by the models. */
module Common {
  datatype Option<+T> = None | Some(value: T)

  /** uint8_t */
  type byte = x: int | 0 <= x < 256

  /** uint32_t */
  type word = x: int | 0 <= x < 0x1_0000_0000

  const TWO16: nat := 0x1_0000
  const TWO32: nat := 0x1_0000_0000
  const TWO64: nat := 0x1_0000_0000_0000_0000

  /** Concatenation of a list of lists. */
  function Flatten<T>(parts: seq<seq<T>>): (r: seq<T>)
  {
    if parts == [] then [] else parts[0] + Flatten(parts[1..])
  }

  lemma FlattenCons<T>(x: seq<T>, rest: seq<seq<T>>)
    ensures Flatten([x] + rest) == x + Flatten(rest)
  {
    assert ([x] + rest)[1..] == rest;
  }

  /** Sum of two uint32_t values. */
  function Sum32(a: nat, b: nat): (s: nat)
    requires a < TWO32 && b < TWO32
    ensures s < TWO32
  {
    if a + b < TWO32 then a + b else a + b - TWO32
  }

  lemma {:induction false} FlattenAppend<T>(a: seq<seq<T>>, b: seq<seq<T>>)
    ensures Flatten(a + b) == Flatten(a) + Flatten(b)
  {
    if a == [] {
      assert a + b == b;
    } else {
      assert (a + b)[1..] == a[1..] + b;
      FlattenAppend(a[1..], b);
    }
  }

  // ---- Free lists over an array of in-use flags ----

  ghost predicate NoDuplicates(s: seq<nat>)
  {
    forall i, j :: 0 <= i < j < |s| ==> s[i] != s[j]
  }

  /** The free list holds exactly the indices not in use, each once. */
  ghost predicate Partitions(available: seq<nat>, inUse: seq<bool>)
  {
    && NoDuplicates(available)
    && (forall i :: 0 <= i < |available| ==> available[i] < |inUse|)
    && (forall id: nat :: id < |inUse| ==> (id in available <==> !inUse[id]))
  }

  function InUseCount(inUse: seq<bool>): (n: nat)
    ensures n <= |inUse|
  {
    if inUse == [] then 0
    else (if inUse[|inUse| - 1] then 1 else 0) + InUseCount(inUse[..|inUse| - 1])
  }

  lemma {:induction false} InUseCountUpdate(inUse: seq<bool>, id: nat)
    requires id < |inUse|
    ensures InUseCount(inUse[id := true]) == InUseCount(inUse[id := false]) + 1
    ensures inUse[id] ==> InUseCount(inUse) == InUseCount(inUse[id := false]) + 1
    ensures !inUse[id] ==> InUseCount(inUse) == InUseCount(inUse[id := false])
    decreases |inUse|
  {
    var n := |inUse| - 1;
    if id == n {
      assert inUse[id := true][..n] == inUse[..n] == inUse[id := false][..n];
    } else {
      InUseCountUpdate(inUse[..n], id);
      assert inUse[id := true][..n] == inUse[..n][id := true];
      assert inUse[id := false][..n] == inUse[..n][id := false];
    }
  }

  lemma {:induction false} NoneInUse(n: nat)
    ensures InUseCount(seq(n, i => false)) == 0
  {
    if n == 0 {
    } else {
      assert seq(n, i => false)[..n - 1] == seq(n - 1, i => false);
      NoneInUse(n - 1);
    }
  }

  /** Taking the front index and marking it keeps the partition. */
  lemma BorrowPartitions(available: seq<nat>, inUse: seq<bool>)
    requires Partitions(available, inUse) && available != []
    ensures Partitions(available[1..], inUse[available[0] := true])
    ensures !inUse[available[0]]
  {
    var id := available[0];
    assert id in available;
    forall x: nat | x < |inUse| ensures x in available[1..] <==> !inUse[id := true][x] {
      assert available == [id] + available[1..];
    }
  }

  lemma ReturnPartitions(available: seq<nat>, inUse: seq<bool>, id: nat)
    requires Partitions(available, inUse) && id < |inUse| && inUse[id]
    ensures Partitions(available + [id], inUse[id := false])
  {
  }

  /** Conservation: free indices plus indices in use are the whole pool. */
  lemma {:induction false} FreePlusInUse(available: seq<nat>, inUse: seq<bool>)
    requires Partitions(available, inUse)
    ensures |available| + InUseCount(inUse) == |inUse|
    decreases |available|
  {
    if available == [] {
      assert forall id: nat :: id < |inUse| ==> inUse[id];
      AllInUse(inUse);
    } else {
      BorrowPartitions(available, inUse);
      InUseCountUpdate(inUse, available[0]);
      FreePlusInUse(available[1..], inUse[available[0] := true]);
    }
  }

  lemma {:induction false} AllInUse(inUse: seq<bool>)
    requires forall id: nat :: id < |inUse| ==> inUse[id]
    ensures InUseCount(inUse) == |inUse|
  {
    if inUse == [] {
    } else {
      AllInUse(inUse[..|inUse| - 1]);
    }
  }
}
