/**
  The ROCm path of cumem_allocator.cpp: an allocation is split into chunks, each with its own
  handle, and mapped back to back; a failure part of the way is undone.
 */
module CumemAllocator {
  import opened Sequences

  const WORD := 0x1_0000_0000_0000_0000

  // ---------------------------------------------------------- chunk splitting

  /** A 64-bit unsigned integer. */
  type word = x: nat | x < WORD

  const MEGABYTE := 0x10_0000
  const DEFAULT_CHUNK := 256 * MEGABYTE

  /** The chunk size asked for: the setting in megabytes, if it parses, is not zero and is not too large for a word. */
  function ConfiguredChunk(setting: Option<nat>): (base: word)
    ensures base > 0 && base % MEGABYTE == 0
    ensures setting.None? || setting.value == 0 || setting.value > 17592186044415 ==> base == 268435456
    ensures setting.Some? && 0 < setting.value <= 17592186044415 ==> base == setting.value * 1048576
  {
    if setting.None? || setting.value == 0 || setting.value > (WORD - 1) / MEGABYTE then DEFAULT_CHUNK
    else setting.value * MEGABYTE
  }

  /** ((x + g - 1) / g) * g in 64-bit unsigned arithmetic. */
  function AlignUp(x: word, g: word): (aligned: word)
    requires g > 0
  {
    DivideBounds((x + g - 1) % WORD, g);
    Product((x + g - 1) % WORD / g, g)
  }

  function Product(a: nat, b: nat): (p: nat) {
    assert a * b >= 0;
    a * b
  }

  lemma {:induction false} DivideBounds(x: nat, g: nat)
    requires g > 0
    ensures x / g * g <= x < x / g * g + g
  {
  }

  lemma {:induction false} DivideSmall(x: nat, g: nat)
    requires x < g
    ensures x / g == 0
  {
  }

  /** Alignment rounds up to the next multiple exactly when the sum does not wrap; when it wraps, to zero. */
  lemma {:induction false} AlignUpRoundsUp(x: word, g: word)
    requires 0 < g
    ensures x + g - 1 < WORD ==> x <= AlignUp(x, g) < x + g
    ensures x + g - 1 >= WORD ==> AlignUp(x, g) == 0
    ensures AlignUp(x, g) % g == 0
    ensures AlignUp(x, g) == 0 <==> x == 0 || x + g - 1 >= WORD
  {
    hide AlignUp;
    AlignUpIsMultiple(x, g);
    if x + g - 1 >= WORD {
      AlignUpWraps(x, g);
    } else {
      AlignUpDoesNotWrap(x, g);
    }
  }

  lemma {:induction false} AlignUpIsMultiple(x: word, g: word)
    requires 0 < g
    ensures AlignUp(x, g) % g == 0
  {
    MultipleOf((x + g - 1) % WORD / g, g);
  }

  lemma {:induction false} AlignUpWraps(x: word, g: word)
    requires 0 < g && x + g - 1 >= WORD
    ensures AlignUp(x, g) == 0
  {
    assert (x + g - 1) % WORD == x + g - 1 - WORD;
    DivideSmall(x + g - 1 - WORD, g);
  }

  lemma {:induction false} AlignUpDoesNotWrap(x: word, g: word)
    requires 0 < g && x + g - 1 < WORD
    ensures x <= AlignUp(x, g) < x + g
    ensures AlignUp(x, g) == 0 <==> x == 0
  {
    assert (x + g - 1) % WORD == x + g - 1;
    DivideBounds(x + g - 1, g);
    if x == 0 {
      DivideSmall(g - 1, g);
    }
  }

  /** The running offset at which chunk k starts. */
  function Offset(sizes: seq<nat>, k: nat): nat
    requires k <= |sizes|
  {
    if k == 0 then 0 else Offset(sizes, k - 1) + sizes[k - 1]
  }

  /** Every chunk is a positive multiple of the granularity, none is larger than a chunk, and they add up. */
  ghost predicate Tiles(sizes: seq<nat>, total: nat, g: nat, chunk: nat)
    requires g > 0
  {
    && (forall k | 0 <= k < |sizes| :: 0 < sizes[k] <= chunk && sizes[k] % g == 0)
    && Offset(sizes, |sizes|) == total
  }

  /** No 64-bit sum of the splitting wraps, and there is something to divide by. */
  predicate Fits(size: word, g: word, base: word) {
    && 0 < g && 0 < base && size + g - 1 < WORD && base + g - 1 < WORD
    && AlignUp(size, g) + AlignUp(base, g) - 1 < WORD
  }

  lemma {:induction false} MultipleOf(q: nat, g: nat)
    requires g > 0
    ensures q * g % g == 0
  {
    var x := q * g;
    assert x == g * (x / g) + x % g;
    SmallMultiple(q - x / g, g, x % g);
  }

  lemma {:induction false} QuotientOf(x: nat, g: nat)
    requires g > 0 && x % g == 0
    ensures x == x / g * g
  {
  }

  lemma {:induction false} SmallMultiple(d: int, g: nat, r: nat)
    requires d * g == r < g
    ensures r == 0
  {
  }

  lemma {:induction false} ChunkIsMultiple(total: nat, chunk: nat, i: nat, g: nat, a: nat, c: nat)
    requires g > 0 && total == a * g && chunk == c * g && i * chunk <= total
    ensures (total - i * chunk) % g == 0 && chunk % g == 0
  {
    var q := a - i * c;
    assert total - i * chunk == q * g by {
      assert i * chunk == (i * c) * g;
    }
    NonNegativeFactor(q, g);
    MultipleOf(q, g);
    MultipleOf(c, g);
  }

  lemma {:induction false} NonNegativeFactor(q: int, g: nat)
    requires g > 0 && q * g >= 0
    ensures q >= 0
  {
  }

  lemma {:induction false} OffsetOfPrefix(xs: seq<nat>, ys: seq<nat>, k: nat)
    requires k <= |xs| && k <= |ys| && xs[..k] == ys[..k]
    ensures Offset(xs, k) == Offset(ys, k)
  {
    if k > 0 {
      assert xs[..k - 1] == xs[..k][..k - 1] && ys[..k - 1] == ys[..k][..k - 1];
      assert xs[k - 1] == xs[..k][k - 1] && ys[k - 1] == ys[..k][k - 1];
      OffsetOfPrefix(xs, ys, k - 1);
    }
  }

  datatype Splitting = Splitting(alignedSize: nat, sizes: seq<nat>)

  datatype SplitError = DivisionByZero

  /** The chunks cover the size asked for, rounded up to the granularity, and all but the last are full. */
  ghost predicate Covers(size: word, g: word, base: word, s: Splitting)
    requires g > 0
  {
    && size <= s.alignedSize < size + g && s.alignedSize % g == 0
    && Tiles(s.sizes, s.alignedSize, g, AlignUp(base, g))
    && forall k | 0 <= k < |s.sizes| - 1 :: s.sizes[k] == AlignUp(base, g)
  }

  /** How many chunks the program makes. */
  function ChunkCount(alignedSize: word, chunk: word): nat
    requires chunk > 0
  {
    (alignedSize + chunk - 1) % WORD / chunk
  }

  /** There are enough chunks, and not one too many, unless the sum wraps: then there is none. */
  lemma {:induction false} CountReaches(alignedSize: word, chunk: word)
    requires chunk > 0
    ensures alignedSize + chunk - 1 < WORD ==>
      var n := ChunkCount(alignedSize, chunk);
      alignedSize <= n * chunk <= alignedSize + chunk - 1
    ensures alignedSize + chunk - 1 >= WORD || alignedSize == 0 ==> ChunkCount(alignedSize, chunk) == 0
  {
    DivideBounds((alignedSize + chunk - 1) % WORD, chunk);
    if alignedSize + chunk - 1 >= WORD {
      assert (alignedSize + chunk - 1) % WORD == alignedSize + chunk - 1 - WORD;
      DivideSmall(alignedSize + chunk - 1 - WORD, chunk);
    } else if alignedSize == 0 {
      DivideSmall(chunk - 1, chunk);
    }
  }

  /** The splitting of my_malloc, on every input: it covers the allocation exactly when no sum wraps. */
  method SplitChunks(size: word, g: word, base: word) returns (r: Result<Splitting, SplitError>)
    ensures r.Err? <==> g == 0 || base == 0 || base + g - 1 >= WORD
    ensures r.Ok? && Covers(size, g, base, r.value) <==> Fits(size, g, base)
    ensures r.Ok? && !Fits(size, g, base) ==> r.value.sizes == [] && size > 0
    ensures r.Ok? ==> r.value.alignedSize == AlignUp(size, g)
  {
    if g == 0 {
      return Err(DivisionByZero);
    }
    var alignedSize := AlignUp(size, g);
    var chunk := AlignUp(base, g);
    AlignUpRoundsUp(size, g);
    AlignUpRoundsUp(base, g);
    if chunk == 0 {
      return Err(DivisionByZero);
    }
    var numChunks := ChunkCount(alignedSize, chunk);
    CountReaches(alignedSize, chunk);
    var sizes := FillChunks(alignedSize, chunk, numChunks, g);
    r := Ok(Splitting(alignedSize, sizes));
  }

  /** The loop that fills in the chunk sizes. */
  method FillChunks(alignedSize: word, chunk: word, numChunks: nat, g: word) returns (sizes: seq<nat>)
    requires 0 < g && 0 < chunk && alignedSize % g == 0 && chunk % g == 0
    requires numChunks * chunk <= alignedSize + chunk - 1
    ensures |sizes| == numChunks && Tiles(sizes, Min(numChunks * chunk, alignedSize), g, chunk)
    ensures forall k | 0 <= k < numChunks - 1 :: sizes[k] == chunk
  {
    hide Tiles;
    NoChunksYet(alignedSize, g, chunk);
    sizes := [];
    for i := 0 to numChunks
      invariant |sizes| == i
      invariant Tiles(sizes, Min(i * chunk, alignedSize), g, chunk)
      invariant forall k | 0 <= k < i && k < numChunks - 1 :: sizes[k] == chunk
    {
      OneChunkMore(sizes, alignedSize, chunk, numChunks, i, g);
      var next: nat := Min(alignedSize - i * chunk, chunk);
      sizes := sizes + [next];
    }
  }

  lemma {:induction false} NoChunksYet(alignedSize: nat, g: nat, chunk: nat)
    requires g > 0
    ensures Tiles([], Min(0 * chunk, alignedSize), g, chunk)
  {
  }

  /** What the loop adds is a positive multiple of the granularity, and a full chunk before the last. */
  lemma {:induction false} OneChunkMore(sizes: seq<nat>, alignedSize: nat, chunk: nat, numChunks: nat, i: nat, g: nat)
    requires 0 < g && 0 < chunk && alignedSize % g == 0 && chunk % g == 0
    requires numChunks * chunk <= alignedSize + chunk - 1 && i == |sizes| < numChunks
    requires Tiles(sizes, Min(i * chunk, alignedSize), g, chunk)
    ensures 0 < Min(alignedSize - i * chunk, chunk)
    ensures i + 1 < numChunks ==> Min(alignedSize - i * chunk, chunk) == chunk
    ensures Tiles(sizes + [Min(alignedSize - i * chunk, chunk)], Min((i + 1) * chunk, alignedSize), g, chunk)
  {
    BeforeTheEnd(alignedSize, chunk, numChunks, i);
    QuotientOf(alignedSize, g);
    QuotientOf(chunk, g);
    ChunkIsMultiple(alignedSize, chunk, i, g, alignedSize / g, chunk / g);
    var next: nat := Min(alignedSize - i * chunk, chunk);
    OffsetOfPrefix(sizes, sizes + [next], i);
  }

  /** Sizes that a signed argument can hold fit with any granularity and chunk size that are not enormous. */
  lemma {:induction false} OrdinaryRequestsFit(size: word, g: word, base: word)
    requires size < 0x8000_0000_0000_0000
    requires 0 < g <= 0x2000_0000_0000_0000 && 0 < base <= 0x4000_0000_0000_0000
    ensures Fits(size, g, base)
  {
    AlignUpRoundsUp(size, g);
    AlignUpRoundsUp(base, g);
  }

  const GRANULARITY := 2 * MEGABYTE

  /** A chunk setting that is let through and makes no chunk at all for an allocation of two granules. */
  lemma {:induction false} HugeChunkMakesNone()
    ensures var base := ConfiguredChunk(Some(17592186044414));
      base == AlignUp(base, GRANULARITY) == WORD - GRANULARITY
    ensures !Fits(2 * GRANULARITY, GRANULARITY, ConfiguredChunk(Some(17592186044414)))
    ensures ChunkCount(AlignUp(2 * GRANULARITY, GRANULARITY), WORD - GRANULARITY) == 0
  {
    AlignUpRoundsUp(ConfiguredChunk(Some(17592186044414)), GRANULARITY);
    CountReaches(AlignUp(2 * GRANULARITY, GRANULARITY), WORD - GRANULARITY);
  }

  /** A chunk setting that is let through and makes the program divide by zero, whatever the allocation. */
  lemma {:induction false} LargestChunkIsZero(size: word)
    ensures ConfiguredChunk(Some(17592186044415)) == WORD - MEGABYTE
    ensures AlignUp(ConfiguredChunk(Some(17592186044415)), GRANULARITY) == 0
    ensures !Fits(size, GRANULARITY, ConfiguredChunk(Some(17592186044415)))
  {
    AlignUpRoundsUp(ConfiguredChunk(Some(17592186044415)), GRANULARITY);
  }

  lemma {:induction false} BeforeTheEnd(total: nat, chunk: nat, n: nat, i: nat)
    requires chunk > 0 && n * chunk <= total + chunk - 1 && i < n
    ensures i * chunk < total && (i + 1) * chunk == i * chunk + chunk
    ensures i + 1 < n ==> (i + 1) * chunk < total
  {
    assert (n - 1) * chunk == n * chunk - chunk;
    assert i * chunk <= (n - 1) * chunk;
    if i + 1 < n {
      assert (i + 1) * chunk <= (n - 1) * chunk;
    }
  }

  lemma {:induction false} OffsetsInOrder(sizes: seq<nat>, j: nat, k: nat)
    requires j < k <= |sizes|
    ensures Offset(sizes, j) + sizes[j] <= Offset(sizes, k)
    decreases k
  {
    if j < k - 1 {
      OffsetsInOrder(sizes, j, k - 1);
    }
  }

  /** Every byte of the allocation belongs to exactly one chunk. */
  lemma {:induction false} EveryByteHasOneChunk(sizes: seq<nat>, n: nat, x: nat)
    requires n <= |sizes| && x < Offset(sizes, n)
    ensures exists k :: 0 <= k < n && Offset(sizes, k) <= x < Offset(sizes, k) + sizes[k]
    ensures forall j, k | 0 <= j < k < n ::
      !(Offset(sizes, j) <= x < Offset(sizes, j) + sizes[j] && Offset(sizes, k) <= x < Offset(sizes, k) + sizes[k])
  {
    if x < Offset(sizes, n - 1) {
      EveryByteHasOneChunk(sizes, n - 1, x);
    }
    forall j, k | 0 <= j < k < n
      ensures Offset(sizes, j) + sizes[j] <= Offset(sizes, k)
    {
      OffsetsInOrder(sizes, j, k);
    }
  }

  /** The range from the base to the total is that of the chunks: each is in it, and the last one ends it. */
  lemma {:induction false} AccessCoversChunks(base: nat, sizes: seq<nat>, size: nat, g: nat, chunk: nat, k: nat)
    requires g > 0 && Tiles(sizes, size, g, chunk) && k < |sizes|
    ensures base <= base + Offset(sizes, k) < base + Offset(sizes, k) + sizes[k] <= base + size
    ensures k + 1 == |sizes| ==> base + Offset(sizes, k) + sizes[k] == base + size
  {
    OffsetsInOrder(sizes, k, |sizes|);
  }

  // ------------------------------------------------------------------ driver

  datatype Call = Create | Map | Unmap | ReleaseHandle | SetAccess

  datatype Mapping = Mapping(size: nat, handle: nat)

  type Mappings = map<nat, Mapping>

  /** Some byte of the range is mapped already. */
  predicate Overlaps(mapped: Mappings, address: nat, size: nat) {
    || address in mapped
    || exists a | a in mapped :: a < address + size && address < a + mapped[a].size
  }

  /** Every mapped range ends before the given one begins, or begins after it ends. */
  ghost predicate IsFree(mapped: Mappings, address: nat, size: nat) {
    forall a | a in mapped :: a != address && (a + mapped[a].size <= address || address + size <= a)
  }

  /**
    The memory driver: it may refuse any call, for reasons of its own, with a nonzero status, and it
    refuses to map over a mapped range or to undo what is not there. A refused call changes nothing.
   */
  class Driver {
    const refusal: (Call, nat) -> int
    var calls: nat
    /** How many times access was set, and with what status the last time. */
    var accessCalls: nat
    var lastAccess: int
    /** The range whose access was set last. */
    var accessAddress: nat
    var accessSize: nat
    var live: set<nat>
    var nextHandle: nat
    var mapped: Mappings

    ghost predicate Valid()
      reads this
    {
      && (forall h | h in live :: h < nextHandle)
      && forall a, b | a in mapped && b in mapped && a < b :: a + mapped[a].size <= b
    }

    /** The driver never refuses a correct call to unmap or to release. */
    ghost predicate CleansUp() {
      forall n :: refusal(Unmap, n) == 0 && refusal(ReleaseHandle, n) == 0
    }

    /** The driver never refuses to create, and never to map where there is room. */
    ghost predicate Obliges() {
      forall n :: refusal(Create, n) == 0 && refusal(Map, n) == 0
    }

    method MemCreate(size: nat) returns (status: int, handle: nat)
      requires Valid()
      modifies this
      ensures Valid() && calls == old(calls) + 1 && accessCalls == old(accessCalls) && mapped == old(mapped)
      ensures status == refusal(Create, old(calls))
      ensures status == 0 ==> handle !in old(live) && live == old(live) + {handle}
      ensures status != 0 ==> live == old(live)
    {
      status, handle := refusal(Create, calls), nextHandle;
      calls := calls + 1;
      if status == 0 {
        live, nextHandle := live + {handle}, nextHandle + 1;
      }
    }

    method MemMap(address: nat, size: nat, handle: nat) returns (status: int)
      requires Valid()
      modifies this
      ensures Valid() && calls == old(calls) + 1 && accessCalls == old(accessCalls) && live == old(live)
      ensures status == 0 ==> address !in old(mapped) && mapped == old(mapped)[address := Mapping(size, handle)]
      ensures status != 0 ==> mapped == old(mapped)
      ensures status == 0 <==>
        refusal(Map, old(calls)) == 0 && handle in live && IsFree(old(mapped), address, size)
    {
      status := refusal(Map, calls);
      calls := calls + 1;
      if status == 0 && (handle !in live || Overlaps(mapped, address, size)) {
        status := 1;
      }
      if status == 0 {
        mapped := mapped[address := Mapping(size, handle)];
      }
    }

    method MemUnmap(address: nat, size: nat) returns (status: int)
      requires Valid()
      modifies this`calls, this`mapped
      ensures Valid() && calls == old(calls) + 1
      ensures status == 0 ==> address in old(mapped) && mapped == old(mapped) - {address}
      ensures status != 0 ==> mapped == old(mapped)
      ensures refusal(Unmap, old(calls)) != 0 || (address in old(mapped) && old(mapped)[address].size == size) ==>
        status == refusal(Unmap, old(calls))
    {
      status := refusal(Unmap, calls);
      calls := calls + 1;
      if status == 0 && (address !in mapped || mapped[address].size != size) {
        status := 1;
      }
      if status == 0 {
        mapped := mapped - {address};
      }
    }

    method MemRelease(handle: nat) returns (status: int)
      requires Valid()
      modifies this`calls, this`live
      ensures Valid() && calls == old(calls) + 1
      ensures status == 0 ==> handle in old(live) && live == old(live) - {handle}
      ensures status != 0 ==> live == old(live)
      ensures refusal(ReleaseHandle, old(calls)) != 0 || handle in old(live) ==>
        status == refusal(ReleaseHandle, old(calls))
    {
      status := refusal(ReleaseHandle, calls);
      calls := calls + 1;
      if status == 0 && handle !in live {
        status := 1;
      }
      if status == 0 {
        live := live - {handle};
      }
    }

    method MemSetAccess(address: nat, size: nat) returns (status: int)
      requires Valid()
      modifies this
      ensures Valid() && calls == old(calls) + 1 && accessCalls == old(accessCalls) + 1
      ensures live == old(live) && mapped == old(mapped)
      ensures lastAccess == status == refusal(SetAccess, old(calls))
      ensures accessAddress == address && accessSize == size
    {
      status := refusal(SetAccess, calls);
      calls, accessCalls, lastAccess := calls + 1, accessCalls + 1, status;
      accessAddress, accessSize := address, size;
    }
  }

  // ------------------------------------------------- handles and mapped chunks

  /** live is before together with the distinct handles from..to, all of them new. */
  ghost predicate HoldsHandles(before: set<nat>, live: set<nat>, handles: seq<nat>, from: nat, to: nat)
    requires from <= to <= |handles|
  {
    && (forall j, k | from <= j < k < to :: handles[j] != handles[k])
    && (forall k | from <= k < to :: handles[k] !in before)
    && live == before + (set h | h in handles[from..to])
  }

  function Address(base: nat, sizes: seq<nat>, k: nat): nat
    requires k <= |sizes|
  {
    base + Offset(sizes, k)
  }

  /** mapped is before together with chunks from..to, each at its own new address with its own handle. */
  ghost predicate HoldsChunks(
      before: Mappings, mapped: Mappings, base: nat, sizes: seq<nat>, handles: seq<nat>, from: nat, to: nat)
    requires from <= to <= |sizes| && to <= |handles|
  {
    && (forall j, k | from <= j < k < to :: Address(base, sizes, j) != Address(base, sizes, k))
    && (forall k | from <= k < to :: Address(base, sizes, k) !in before)
    && (forall k | from <= k < to ::
          Address(base, sizes, k) in mapped && mapped[Address(base, sizes, k)] == Mapping(sizes[k], handles[k]))
    && (forall a | a in before :: a in mapped && mapped[a] == before[a])
    && (forall a | a in mapped :: a in before || IsChunkAddress(base, sizes, from, to, a))
  }

  ghost predicate IsChunkAddress(base: nat, sizes: seq<nat>, from: nat, to: nat, a: nat)
    requires to <= |sizes|
  {
    exists k :: from <= k < to && a == Address(base, sizes, k)
  }

  lemma {:induction false} HandleAdded(before: set<nat>, live: set<nat>, handles: seq<nat>, more: seq<nat>, k: nat)
    requires k < |handles| == |more| && handles[..k] == more[..k]
    requires HoldsHandles(before, live, handles, 0, k) && more[k] !in live
    ensures HoldsHandles(before, live + {more[k]}, more, 0, k + 1)
  {
    assert forall j | 0 <= j < k :: more[j] == more[..k][j] == handles[j];
    assert more[0..k + 1] == handles[0..k] + [more[k]];
    forall j | 0 <= j < k
      ensures more[j] in live
    {
      assert handles[j] in handles[0..k];
    }
  }

  lemma {:induction false} ChunkAdded(
      before: Mappings, mapped: Mappings, base: nat, sizes: seq<nat>, handles: seq<nat>, k: nat)
    requires k < |sizes| == |handles| && HoldsChunks(before, mapped, base, sizes, handles, 0, k)
    requires Address(base, sizes, k) !in mapped
    ensures HoldsChunks(before, mapped[Address(base, sizes, k) := Mapping(sizes[k], handles[k])],
                        base, sizes, handles, 0, k + 1)
  {
    hide Address;
    var more := mapped[Address(base, sizes, k) := Mapping(sizes[k], handles[k])];
    forall a | a in more
      ensures a in before || IsChunkAddress(base, sizes, 0, k + 1, a)
    {
      if a in mapped && a !in before {
        var j :| 0 <= j < k && a == Address(base, sizes, j);
      }
    }
  }

  lemma {:induction false} NoHandlesLeft(before: set<nat>, live: set<nat>, handles: seq<nat>, k: nat)
    requires k <= |handles|
    ensures HoldsHandles(before, live, handles, k, k) <==> live == before
  {
    assert handles[k..k] == [];
  }

  lemma {:induction false} NoChunksLeft(
      before: Mappings, mapped: Mappings, base: nat, sizes: seq<nat>, handles: seq<nat>, k: nat)
    requires k <= |sizes| && k <= |handles|
    ensures HoldsChunks(before, mapped, base, sizes, handles, k, k) <==> mapped == before
  {
  }

  // ------------------------------------------------------------ partial undoing

  /** What a driver that knows the chunks answers: n calls to unmap, and then n calls to release. */
  ghost function Replies(driver: Driver, calls: nat, n: nat): (replies: seq<int>)
    ensures |replies| == 2 * n
    ensures forall k | 0 <= k < 2 * n ::
      replies[k] == driver.refusal(if k < n then Unmap else ReleaseHandle, calls + k)
  {
    seq(2 * n, k requires 0 <= k < 2 * n => driver.refusal(if k < n then Unmap else ReleaseHandle, calls + k))
  }

  /** The first status that is not zero, or zero. */
  function FirstRefusal(replies: seq<int>): int {
    if replies == [] then 0 else if replies[0] != 0 then replies[0] else FirstRefusal(replies[1..])
  }

  lemma {:induction false} RefusalSnoc(replies: seq<int>, status: int)
    ensures FirstRefusal(replies + [status]) == if FirstRefusal(replies) != 0 then FirstRefusal(replies) else status
  {
    if replies == [] {
      assert ([status])[1..] == [];
    } else {
      assert (replies + [status])[1..] == replies[1..] + [status];
      RefusalSnoc(replies[1..], status);
    }
  }

  lemma {:induction false} OneMoreReply(replies: seq<int>, i: nat)
    requires i < |replies|
    ensures FirstRefusal(replies[..i + 1])
         == if FirstRefusal(replies[..i]) != 0 then FirstRefusal(replies[..i]) else replies[i]
  {
    assert replies[..i + 1] == replies[..i] + [replies[i]];
    RefusalSnoc(replies[..i], replies[i]);
  }

  lemma {:induction false} NothingRefused(replies: seq<int>)
    ensures FirstRefusal(replies[..0]) == 0
  {
  }

  lemma {:induction false} NoRefusal(replies: seq<int>)
    ensures FirstRefusal(replies) == 0 <==> forall k | 0 <= k < |replies| :: replies[k] == 0
  {
    if replies != [] {
      NoRefusal(replies[1..]);
      assert forall k | 0 < k < |replies| :: replies[k] == replies[1..][k - 1];
    }
  }

  lemma {:induction false} AllAgreed(driver: Driver, calls: nat, replies: seq<int>, n: nat)
    requires replies == Replies(driver, calls, n)
    ensures FirstRefusal(replies) == 0 <==>
      Agrees(driver, Unmap, calls, n) && Agrees(driver, ReleaseHandle, calls + n, n)
    ensures driver.CleansUp() ==> FirstRefusal(replies) == 0
  {
    NoRefusal(replies);
    if FirstRefusal(replies) == 0 {
      assert forall m | calls <= m < calls + n :: replies[m - calls] == driver.refusal(Unmap, m);
      assert forall m | calls + n <= m < calls + n + n :: replies[m - calls] == driver.refusal(ReleaseHandle, m);
    }
  }

  /** None of the next n calls is refused. */
  ghost predicate Agrees(driver: Driver, call: Call, calls: nat, n: nat) {
    forall m | calls <= m < calls + n :: driver.refusal(call, m) == 0
  }

  /** The addresses of the first n chunks that the driver agrees to unmap. */
  ghost function Undone(driver: Driver, calls: nat, base: nat, sizes: seq<nat>, n: nat): set<nat>
    requires n <= |sizes|
  {
    set k | 0 <= k < n && driver.refusal(Unmap, calls + k) == 0 :: Address(base, sizes, k)
  }

  /** The handles of the first n chunks that the driver agrees to release. */
  ghost function Freed(driver: Driver, calls: nat, handles: seq<nat>, n: nat): set<nat>
    requires n <= |handles|
  {
    set k | 0 <= k < n && driver.refusal(ReleaseHandle, calls + k) == 0 :: handles[k]
  }

  lemma {:induction false} NothingUndone(driver: Driver, calls: nat, base: nat, sizes: seq<nat>, mapped: Mappings)
    ensures mapped - Undone(driver, calls, base, sizes, 0) == mapped
  {
  }

  lemma {:induction false} OneMoreUndone(
      driver: Driver, calls: nat, base: nat, sizes: seq<nat>, mapped: Mappings, i: nat)
    requires i < |sizes|
    ensures mapped - Undone(driver, calls, base, sizes, i + 1)
         == if driver.refusal(Unmap, calls + i) == 0
            then mapped - Undone(driver, calls, base, sizes, i) - {Address(base, sizes, i)}
            else mapped - Undone(driver, calls, base, sizes, i)
  {
    hide Address;
    assert Undone(driver, calls, base, sizes, i + 1)
        == Undone(driver, calls, base, sizes, i)
         + if driver.refusal(Unmap, calls + i) == 0 then {Address(base, sizes, i)} else {};
  }

  lemma {:induction false} StillMapped(
      driver: Driver, calls: nat, before: Mappings, mapped: Mappings,
      base: nat, sizes: seq<nat>, handles: seq<nat>, n: nat, i: nat)
    requires i < n <= |sizes| && n <= |handles| && HoldsChunks(before, mapped, base, sizes, handles, 0, n)
    ensures var left := mapped - Undone(driver, calls, base, sizes, i);
      Address(base, sizes, i) in left && left[Address(base, sizes, i)].size == sizes[i]
  {
    hide Address;
  }

  lemma {:induction false} AllUndone(
      driver: Driver, calls: nat, before: Mappings, mapped: Mappings,
      base: nat, sizes: seq<nat>, handles: seq<nat>, n: nat)
    requires n <= |sizes| && n <= |handles| && HoldsChunks(before, mapped, base, sizes, handles, 0, n)
    requires Agrees(driver, Unmap, calls, n)
    ensures mapped - Undone(driver, calls, base, sizes, n) == before
  {
    hide Address;
    forall k | 0 <= k < n
      ensures Address(base, sizes, k) in Undone(driver, calls, base, sizes, n)
    {
      assert driver.refusal(Unmap, calls + k) == 0;
    }
    var left := mapped - Undone(driver, calls, base, sizes, n);
    forall a
      ensures a in left <==> a in before
    {
      if a in mapped && a !in before {
        assert IsChunkAddress(base, sizes, 0, n, a);
      }
    }
  }

  lemma {:induction false} NothingFreed(driver: Driver, calls: nat, handles: seq<nat>, live: set<nat>)
    ensures live - Freed(driver, calls, handles, 0) == live
  {
  }

  lemma {:induction false} OneMoreFreed(driver: Driver, calls: nat, handles: seq<nat>, live: set<nat>, i: nat)
    requires i < |handles|
    ensures live - Freed(driver, calls, handles, i + 1)
         == if driver.refusal(ReleaseHandle, calls + i) == 0
            then live - Freed(driver, calls, handles, i) - {handles[i]}
            else live - Freed(driver, calls, handles, i)
  {
  }

  /** The first n handles are live, and no two of them are the same. */
  ghost predicate Listed(live: set<nat>, handles: seq<nat>, n: nat)
    requires n <= |handles|
  {
    && (forall k | 0 <= k < n :: handles[k] in live)
    && (forall j, k | 0 <= j < k < n :: handles[j] != handles[k])
  }

  lemma {:induction false} HeldAreListed(before: set<nat>, live: set<nat>, handles: seq<nat>, n: nat)
    requires n <= |handles| && HoldsHandles(before, live, handles, 0, n)
    ensures Listed(live, handles, n) && live == before + Made(handles, n)
  {
    forall k | 0 <= k < n
      ensures handles[k] in live
    {
      assert handles[k] in handles[0..n];
    }
    assert handles[0..n] == handles[..n];
  }

  lemma {:induction false} ListedIsLive(live: set<nat>, handles: seq<nat>, n: nat, i: nat)
    requires i < n <= |handles| && Listed(live, handles, n)
    ensures handles[i] in live
  {
  }

  lemma {:induction false} StillLive(driver: Driver, calls: nat, live: set<nat>, handles: seq<nat>, n: nat, i: nat)
    requires i < n <= |handles| && Listed(live, handles, n)
    ensures handles[i] in live - Freed(driver, calls, handles, i)
  {
  }

  lemma {:induction false} AllFreed(
      driver: Driver, calls: nat, before: set<nat>, live: set<nat>, handles: seq<nat>, n: nat)
    requires n <= |handles| && HoldsHandles(before, live, handles, 0, n)
    requires Agrees(driver, ReleaseHandle, calls, n)
    ensures live - Freed(driver, calls, handles, n) == before
  {
    forall k | 0 <= k < n
      ensures handles[k] in Freed(driver, calls, handles, n)
    {
      assert driver.refusal(ReleaseHandle, calls + k) == 0;
    }
  }

  /** The first n handles. */
  ghost function Made(handles: seq<nat>, n: nat): set<nat>
    requires n <= |handles|
  {
    set h | h in handles[..n]
  }

  /**
    Creating stopped at chunk i, the first one refused: what is left are the handles made before it, less
    those that the driver agreed to release.
   */
  ghost predicate CreateStopped(
      driver: Driver, calls: nat, before: set<nat>, live: set<nat>, handles: seq<nat>, i: nat)
  {
    && i < |handles|
    && Agrees(driver, Create, calls, i) && driver.refusal(Create, calls + i) != 0
    && live == before + Made(handles, i) - Freed(driver, calls + i + 1, handles, i)
  }

  /**
    Mapping stopped at chunk i: what is left are the chunks mapped before it, less those that the driver
    agreed to unmap, and all the handles, less those that it agreed to release.
   */
  ghost predicate MapStopped(
      driver: Driver, calls: nat, held: set<nat>, live: set<nat>, before: Mappings, mapped: Mappings,
      base: nat, sizes: seq<nat>, handles: seq<nat>, i: nat)
  {
    && i < |sizes| == |handles|
    && Agrees(driver, Map, calls, i)
    && live == held - Freed(driver, calls + 2 * i + 1, handles, |handles|)
    && exists chunks: Mappings ::
         && HoldsChunks(before, chunks, base, sizes, handles, 0, i)
         && (driver.refusal(Map, calls + i) != 0 || !IsFree(chunks, Address(base, sizes, i), sizes[i]))
         && mapped == chunks - Undone(driver, calls + i + 1, base, sizes, i)
  }

  ghost predicate MapFailed(
      driver: Driver, calls: nat, held: set<nat>, live: set<nat>, before: Mappings, mapped: Mappings,
      base: nat, sizes: seq<nat>, handles: seq<nat>)
  {
    exists i :: MapStopped(driver, calls, held, live, before, mapped, base, sizes, handles, i)
  }

  /** The chunks are not empty, and nothing is mapped where they go. */
  ghost predicate HasRoom(mapped: Mappings, base: nat, sizes: seq<nat>) {
    && (forall k | 0 <= k < |sizes| :: sizes[k] > 0)
    && forall k | 0 <= k < |sizes| :: IsFree(mapped, Address(base, sizes, k), sizes[k])
  }

  /** Where there is room, the chunks mapped so far leave it to the next one. */
  lemma {:induction false} RoomForNext(
      before: Mappings, mapped: Mappings, base: nat, sizes: seq<nat>, handles: seq<nat>, i: nat)
    requires i < |sizes| == |handles| && HasRoom(before, base, sizes)
    requires HoldsChunks(before, mapped, base, sizes, handles, 0, i)
    ensures IsFree(mapped, Address(base, sizes, i), sizes[i])
  {
    hide Offset;
    assert IsFree(before, Address(base, sizes, i), sizes[i]);
    forall a | a in mapped
      ensures a != Address(base, sizes, i)
      ensures a + mapped[a].size <= Address(base, sizes, i) || Address(base, sizes, i) + sizes[i] <= a
    {
      if a !in before {
        var k :| 0 <= k < i && a == Address(base, sizes, k);
        OffsetsInOrder(sizes, k, i);
      }
    }
  }

  /** Mapping fails only if some call to map is refused or there is no room. */
  lemma {:induction false} MapFailsForAReason(
      driver: Driver, calls: nat, held: set<nat>, live: set<nat>, before: Mappings, mapped: Mappings,
      base: nat, sizes: seq<nat>, handles: seq<nat>)
    requires MapFailed(driver, calls, held, live, before, mapped, base, sizes, handles)
    requires HasRoom(before, base, sizes)
    ensures exists n :: driver.refusal(Map, n) != 0
  {
    hide HoldsChunks, IsFree, HasRoom, Undone, Freed;
    var i: nat :| MapStopped(driver, calls, held, live, before, mapped, base, sizes, handles, i);
    var chunks: Mappings :|
      && HoldsChunks(before, chunks, base, sizes, handles, 0, i)
      && (driver.refusal(Map, calls + i) != 0 || !IsFree(chunks, Address(base, sizes, i), sizes[i]));
    RoomForNext(before, chunks, base, sizes, handles, i);
  }

  // -------------------------------------------------------------- the allocator

  /** The first handle, if the driver agrees to create it. */
  ghost function FirstHandle(driver: Driver, calls: nat, handles: array<nat>): set<nat>
    requires handles.Length > 0
    reads handles
  {
    if driver.refusal(Create, calls) == 0 then {handles[0]} else {}
  }

  class Allocator {
    const driver: Driver
    /** The file's global error code: zero, or the status of the last call that failed under a check. */
    var errorCode: int

    constructor (driver: Driver)
      ensures this.driver == driver && errorCode == 0
    {
      this.driver := driver;
      errorCode := 0;
    }

    /** CUDA_CHECK. */
    method Check(status: int)
      modifies this`errorCode
      ensures errorCode == if status != 0 then status else old(errorCode)
    {
      if status != 0 {
        errorCode := status;
      }
    }

    /** The release loops of create_and_map: their statuses are ignored. */
    method ReleaseAll(handles: seq<nat>, n: nat)
      requires driver.Valid() && n <= |handles| && Listed(driver.live, handles, n)
      modifies driver
      ensures driver.Valid() && driver.mapped == old(driver.mapped) && driver.accessCalls == old(driver.accessCalls)
      ensures driver.live == old(driver.live) - Freed(driver, old(driver.calls), handles, n)
    {
      hide Listed, Freed;
      ghost var c, live := driver.calls, driver.live;
      NothingFreed(driver, c, handles, live);
      for j := 0 to n
        invariant driver.Valid() && driver.mapped == old(driver.mapped)
        invariant driver.accessCalls == old(driver.accessCalls) && driver.calls == c + j
        invariant driver.live == live - Freed(driver, c, handles, j)
      {
        StillLive(driver, c, live, handles, n, j);
        var _ := driver.MemRelease(handles[j]);
        OneMoreFreed(driver, c, handles, live, j);
      }
    }

    /** The unmapping loop of create_and_map's error path. */
    method UnmapFirst(
        base: nat, sizes: seq<nat>, n: nat, ghost handles: seq<nat>, ghost before: Mappings)
      requires driver.Valid() && n <= |sizes| && n <= |handles|
      requires HoldsChunks(before, driver.mapped, base, sizes, handles, 0, n)
      modifies driver
      ensures driver.Valid() && driver.live == old(driver.live) && driver.accessCalls == old(driver.accessCalls)
      ensures driver.calls == old(driver.calls) + n
      ensures driver.mapped == old(driver.mapped) - Undone(driver, old(driver.calls), base, sizes, n)
    {
      hide HoldsChunks, Undone;
      ghost var c, mapped := driver.calls, driver.mapped;
      NothingUndone(driver, c, base, sizes, mapped);
      var unmappedSize := 0;
      for j := 0 to n
        invariant driver.Valid() && driver.live == old(driver.live) && driver.calls == c + j
        invariant driver.accessCalls == old(driver.accessCalls)
        invariant unmappedSize == Offset(sizes, j)
        invariant driver.mapped == mapped - Undone(driver, c, base, sizes, j)
      {
        StillMapped(driver, c, before, mapped, base, sizes, handles, n, j);
        var _ := driver.MemUnmap(base + unmappedSize, sizes[j]);
        OneMoreUndone(driver, c, base, sizes, mapped, j);
        unmappedSize := unmappedSize + sizes[j];
      }
    }

    /** The first loop of create_and_map: one handle for each chunk, or those that could not be released. */
    method CreateAll(handles: array<nat>, sizes: seq<nat>) returns (ok: bool)
      requires driver.Valid() && handles.Length == |sizes|
      modifies this`errorCode, driver, handles
      ensures driver.Valid() && driver.mapped == old(driver.mapped) && driver.accessCalls == old(driver.accessCalls)
      ensures ok ==>
        && errorCode == old(errorCode) && driver.calls == old(driver.calls) + |sizes|
        && HoldsHandles(old(driver.live), driver.live, handles[..], 0, |sizes|)
      ensures ok ==> old(errorCode) == 0 || |sizes| == 0
      ensures !ok ==> errorCode != 0 && |sizes| > 0
      ensures !ok && old(errorCode) == 0 ==>
        exists i :: CreateStopped(driver, old(driver.calls), old(driver.live), driver.live, handles[..], i)
          && errorCode == driver.refusal(Create, old(driver.calls) + i)
      ensures !ok && old(errorCode) == 0 && driver.CleansUp() ==> driver.live == old(driver.live)
      ensures !ok && old(errorCode) != 0 ==>
        driver.live == old(driver.live) + FirstHandle(driver, old(driver.calls), handles)
    {
      hide HoldsHandles, Listed, Freed, Made, Driver.Valid;
      ghost var before, c := driver.live, driver.calls;
      NoHandlesLeft(before, driver.live, handles[..], 0);
      for i := 0 to |sizes|
        invariant driver.Valid() && driver.mapped == old(driver.mapped)
        invariant driver.accessCalls == old(driver.accessCalls)
        invariant HoldsHandles(before, driver.live, handles[..], 0, i)
        invariant driver.calls == c + i && Agrees(driver, Create, c, i)
        invariant i > 0 ==> errorCode == 0 && old(errorCode) == 0
        invariant i == 0 ==> errorCode == old(errorCode) && driver.live == before
      {
        ghost var handles0, live0 := handles[..], driver.live;
        var status, handle := driver.MemCreate(sizes[i]);
        if status == 0 {
          handles[i] := handle;
          HandleAdded(before, live0, handles0, handles[..], i);
        }
        Check(status);
        if errorCode != 0 {
          UndoCreated(before, live0, handles0, c, i, handles);
          return false;
        }
      }
      ok := true;
    }

    /** The clean-up when chunk i could not be created, or the call was entered with an error. */
    method UndoCreated(
        ghost before: set<nat>, ghost live0: set<nat>, ghost handles0: seq<nat>, ghost c: nat, i: nat,
        handles: array<nat>)
      requires driver.Valid() && i < handles.Length == |handles0| && handles[..i] == handles0[..i]
      requires HoldsHandles(before, live0, handles0, 0, i) && driver.calls == c + i + 1
      requires Agrees(driver, Create, c, i)
      requires i > 0 ==> driver.refusal(Create, c + i) != 0
      requires driver.live == if driver.refusal(Create, c + i) == 0 then live0 + {handles[i]} else live0
      modifies driver
      ensures driver.Valid() && driver.mapped == old(driver.mapped) && driver.accessCalls == old(driver.accessCalls)
      ensures driver.refusal(Create, c + i) != 0 ==> CreateStopped(driver, c, before, driver.live, handles[..], i)
      ensures driver.refusal(Create, c + i) != 0 && driver.CleansUp() ==> driver.live == before
      ensures i == 0 ==> driver.live == old(driver.live)
    {
      hide HoldsHandles, Freed, Made;
      HandlesSame(before, live0, handles0, handles[..], i);
      HeldAreListed(before, live0, handles[..], i);
      NothingFreed(driver, c + 1, handles[..], driver.live);
      if driver.CleansUp() {
        AllFreed(driver, c + i + 1, before, live0, handles[..], i);
      }
      ReleaseAll(handles[..], i);
    }

    /** The second loop: every chunk mapped, or whatever could not be undone. */
    method MapAll(
        base: nat, handles: array<nat>, sizes: seq<nat>, ghost liveBefore: set<nat>, ghost before: Mappings)
      returns (ok: bool)
      requires driver.Valid() && handles.Length == |sizes| && (errorCode == 0 || |sizes| == 0)
      requires HoldsHandles(liveBefore, driver.live, handles[..], 0, |sizes|) && driver.mapped == before
      modifies this`errorCode, driver
      ensures driver.Valid() && driver.accessCalls == old(driver.accessCalls)
      ensures ok ==>
        && errorCode == old(errorCode) && driver.live == old(driver.live)
        && HoldsChunks(before, driver.mapped, base, sizes, handles[..], 0, |sizes|)
      ensures !ok ==> errorCode != 0 && |sizes| > 0
      ensures !ok ==>
        MapFailed(driver, old(driver.calls), old(driver.live), driver.live, before, driver.mapped,
                  base, sizes, handles[..])
      ensures !ok && driver.CleansUp() ==> driver.live == liveBefore && driver.mapped == before
    {
      hide HoldsHandles, HoldsChunks, Undone, Freed, Listed, Made, IsFree, Driver.Valid;
      ghost var c, live := driver.calls, driver.live;
      HeldAreListed(liveBefore, live, handles[..], |sizes|);
      var allocatedSize := 0;
      NoChunksLeft(before, driver.mapped, base, sizes, handles[..], 0);
      for i := 0 to |sizes|
        invariant driver.Valid() && driver.accessCalls == old(driver.accessCalls) && errorCode == old(errorCode)
        invariant allocatedSize == Offset(sizes, i) && driver.live == live && driver.calls == c + i
        invariant HoldsChunks(before, driver.mapped, base, sizes, handles[..], 0, i)
        invariant Agrees(driver, Map, c, i)
      {
        ghost var mapped := driver.mapped;
        ListedIsLive(live, handles[..], |sizes|, i);
        var status := driver.MemMap(base + allocatedSize, sizes[i], handles[i]);
        Check(status);
        if errorCode != 0 {
          if driver.CleansUp() {
            AllUndone(driver, c + i + 1, before, mapped, base, sizes, handles[..], i);
            AllFreed(driver, c + 2 * i + 1, liveBefore, live, handles[..], |sizes|);
          }
          UnmapFirst(base, sizes, i, handles[..], before);
          ReleaseAll(handles[..], |sizes|);
          assert MapStopped(driver, c, live, driver.live, before, driver.mapped, base, sizes, handles[..], i);
          return false;
        }
        ChunkAdded(before, mapped, base, sizes, handles[..], i);
        allocatedSize := allocatedSize + sizes[i];
      }
      ok := true;
    }

    /**
      create_and_map. contextError is what ensuring the device context reported. Entered without an
      error it maps every chunk or changes nothing, unless it is the access call that fails, which is
      not undone. Entered with one it stops after the first handle, which it keeps.
     */
    method CreateAndMap(contextError: int, size: nat, base: nat, handles: array<nat>, sizes: seq<nat>)
      requires driver.Valid() && handles.Length == |sizes|
      modifies this`errorCode, driver, handles
      ensures driver.Valid()
      ensures old(driver.accessCalls) <= driver.accessCalls <= old(driver.accessCalls) + 1
      ensures errorCode == 0 <==>
        && old(errorCode) == 0 && contextError == 0
        && driver.accessCalls > old(driver.accessCalls) && driver.lastAccess == 0
      ensures driver.accessCalls > old(driver.accessCalls) ==>
        && HoldsHandles(old(driver.live), driver.live, handles[..], 0, |sizes|)
        && HoldsChunks(old(driver.mapped), driver.mapped, base, sizes, handles[..], 0, |sizes|)
        && driver.accessAddress == base && driver.accessSize == size
      ensures driver.accessCalls == old(driver.accessCalls) && old(errorCode) == 0 && contextError == 0 ==>
        driver.CleansUp() ==> driver.live == old(driver.live) && driver.mapped == old(driver.mapped)
      ensures driver.accessCalls == old(driver.accessCalls) && old(errorCode) == 0 && contextError == 0 ==>
        || (exists i :: CreateStopped(driver, old(driver.calls), old(driver.live), driver.live, handles[..], i)
              && driver.mapped == old(driver.mapped))
        || MapFailed(driver, old(driver.calls) + |sizes|, old(driver.live) + Made(handles[..], |sizes|),
                     driver.live, old(driver.mapped), driver.mapped, base, sizes, handles[..])
      ensures
        && old(errorCode) == 0 && contextError == 0 && HasRoom(old(driver.mapped), base, sizes)
        && driver.Obliges() ==>
          driver.accessCalls > old(driver.accessCalls)
      ensures (old(errorCode) != 0 || contextError != 0) && |sizes| > 0 ==>
        && driver.accessCalls == old(driver.accessCalls) && driver.mapped == old(driver.mapped)
        && driver.live == old(driver.live) + FirstHandle(driver, old(driver.calls), handles)
    {
      hide HoldsHandles, HoldsChunks, MapFailed, Made, HasRoom, Freed, Driver.Valid;
      Check(contextError);
      ghost var live, mapped := driver.live, driver.mapped;
      var created := CreateAll(handles, sizes);
      if !created {
        return;
      }
      HeldAreListed(live, driver.live, handles[..], |sizes|);
      var allMapped := MapAll(base, handles, sizes, live, mapped);
      if !allMapped {
        if HasRoom(mapped, base, sizes) {
          MapFailsForAReason(driver, old(driver.calls) + |sizes|, live + Made(handles[..], |sizes|), driver.live,
                             mapped, driver.mapped, base, sizes, handles[..]);
        }
        return;
      }
      var status := driver.MemSetAccess(base, size);
      Check(status);
    }

    /**
      unmap_and_release: every chunk is tried whatever is refused, exactly what the driver agrees to
      is undone, and the first refusal is what the error code becomes.
     */
    method UnmapAndRelease(
        contextError: int, base: nat, handles: seq<nat>, sizes: seq<nat>,
        ghost liveBefore: set<nat>, ghost before: Mappings)
      requires driver.Valid() && |handles| == |sizes|
      requires HoldsHandles(liveBefore, driver.live, handles, 0, |sizes|)
      requires HoldsChunks(before, driver.mapped, base, sizes, handles, 0, |sizes|)
      modifies this`errorCode, driver`calls, driver`live, driver`mapped
      ensures driver.Valid() && driver.calls == old(driver.calls) + 2 * |sizes|
      ensures driver.mapped
           == old(driver.mapped) - Undone(driver, old(driver.calls), base, sizes, |sizes|)
      ensures driver.live
           == old(driver.live) - Freed(driver, old(driver.calls) + |sizes|, handles, |sizes|)
      ensures var first := FirstRefusal(Replies(driver, old(driver.calls), |sizes|));
        errorCode == if first != 0 then first else if contextError != 0 then contextError else old(errorCode)
      ensures FirstRefusal(Replies(driver, old(driver.calls), |sizes|)) == 0 ==>
        driver.live == liveBefore && driver.mapped == before
      ensures driver.CleansUp() ==> FirstRefusal(Replies(driver, old(driver.calls), |sizes|)) == 0
    {
      hide HoldsHandles, HoldsChunks, FirstRefusal, Undone, Freed, Listed, Made, Driver.Valid;
      Check(contextError);
      ghost var entered, c, n, live, mapped := errorCode, driver.calls, |sizes|, driver.live, driver.mapped;
      ghost var replies := Replies(driver, c, n);
      var allocatedSize, firstError := 0, 0;
      NothingUndone(driver, c, base, sizes, mapped);
      NothingRefused(replies);
      for i := 0 to |sizes|
        invariant driver.Valid() && driver.live == live && driver.calls == c + i
        invariant allocatedSize == Offset(sizes, i) && errorCode == entered
        invariant driver.mapped == mapped - Undone(driver, c, base, sizes, i)
        invariant firstError == FirstRefusal(replies[..i])
      {
        StillMapped(driver, c, before, mapped, base, sizes, handles, n, i);
        var status := driver.MemUnmap(base + allocatedSize, sizes[i]);
        OneMoreUndone(driver, c, base, sizes, mapped, i);
        OneMoreReply(replies, i);
        assert replies[i] == status;
        if status != 0 && firstError == 0 {
          firstError := status;
        }
        allocatedSize := allocatedSize + sizes[i];
      }
      ghost var unmapped := driver.mapped;
      NothingFreed(driver, c + n, handles, live);
      HeldAreListed(liveBefore, live, handles, n);
      for i := 0 to |sizes|
        invariant driver.Valid() && driver.mapped == unmapped && driver.calls == c + n + i
        invariant driver.live == live - Freed(driver, c + n, handles, i) && errorCode == entered
        invariant firstError == FirstRefusal(replies[..n + i])
      {
        StillLive(driver, c + n, live, handles, n, i);
        var status := driver.MemRelease(handles[i]);
        OneMoreFreed(driver, c + n, handles, live, i);
        OneMoreReply(replies, n + i);
        assert replies[n + i] == status;
        if status != 0 && firstError == 0 {
          firstError := status;
        }
      }
      assert replies[..n + n] == replies;
      AllAgreed(driver, c, replies, n);
      if firstError == 0 {
        AllUndone(driver, c, before, mapped, base, sizes, handles, n);
        AllFreed(driver, c + n, liveBefore, live, handles, n);
      }
      if firstError != 0 {
        Check(firstError);
      }
    }

    /** Mapping and then unmapping the same chunks leaves the driver as it was, whatever fails but the access call. */
    method MapThenUnmap(size: nat, base: nat, handles: array<nat>, sizes: seq<nat>)
      requires driver.Valid() && handles.Length == |sizes| && errorCode == 0 && driver.CleansUp()
      modifies this`errorCode, driver, handles
      ensures driver.Valid()
      ensures driver.accessCalls == old(driver.accessCalls) || driver.lastAccess == 0 ==>
        driver.live == old(driver.live) && driver.mapped == old(driver.mapped)
    {
      hide HoldsHandles, HoldsChunks;
      ghost var live, mapped := driver.live, driver.mapped;
      CreateAndMap(0, size, base, handles, sizes);
      if errorCode == 0 {
        UnmapAndRelease(0, base, handles[..], sizes, live, mapped);
      }
    }
  }

  lemma {:induction false} HandlesSame(before: set<nat>, live: set<nat>, handles: seq<nat>, more: seq<nat>, k: nat)
    requires k <= |handles| == |more| && handles[..k] == more[..k]
    requires HoldsHandles(before, live, handles, 0, k)
    ensures HoldsHandles(before, live, more, 0, k)
  {
    assert forall j | 0 <= j < k :: more[j] == more[..k][j] == handles[j];
    assert more[0..k] == handles[0..k];
  }
}
