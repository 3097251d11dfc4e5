/**
  A byte buffer over chunks of a pool. The first (master) chunk starts with the addresses of the
  other chunks, eight bytes each; the data follows it and continues through the other chunks.

  Memory maps addresses to chunks of bytes; address 0 is the null pointer. Addresses are stored in
  the bytes of the master chunk, so data written over them would be found by the proofs.
 */
module PoolBuffer {
  import opened Arithmetic

  newtype Byte = b: int | 0 <= b < 256

  const POINTER_SIZE: nat := 8
  const ADDRESS_LIMIT: nat := 0x1_0000_0000_0000_0000

  type Memory = map<nat, seq<Byte>>

  // ---------------------------------------------------------------------------------------
  // Pointers stored in bytes

  function Encode(a: nat, n: nat): (bytes: seq<Byte>)
    ensures |bytes| == n
    decreases n
  {
    if n == 0 then [] else [(a % 256) as Byte] + Encode(a / 256, n - 1)
  }

  function Decode(bytes: seq<Byte>): nat {
    if bytes == [] then 0 else bytes[0] as nat + 256 * Decode(bytes[1..])
  }

  function Power(n: nat): nat {
    if n == 0 then 1 else 256 * Power(n - 1)
  }

  lemma {:induction false} DecodeEncode(a: nat, n: nat)
    requires a < Power(n)
    ensures Decode(Encode(a, n)) == a
    decreases n
  {
    if n > 0 {
      DecodeEncode(a / 256, n - 1);
      assert Encode(a, n)[1..] == Encode(a / 256, n - 1);
    }
  }

  lemma EightBytes()
    ensures Power(POINTER_SIZE) == ADDRESS_LIMIT
  {
    assert Power(2) == 0x1_0000;
    assert Power(4) == 0x1_0000_0000;
    assert Power(6) == 0x1_0000_0000_0000;
  }

  function PointerAt(chunk: seq<Byte>, i: nat): nat
    requires POINTER_SIZE * (i + 1) <= |chunk|
  {
    Decode(chunk[POINTER_SIZE * i..POINTER_SIZE * (i + 1)])
  }

  /** The chunk after writing bytes from offset at on. */
  function Overwritten(chunk: seq<Byte>, at: nat, bytes: seq<Byte>): (r: seq<Byte>)
    requires at + |bytes| <= |chunk|
    ensures |r| == |chunk|
  {
    chunk[..at] + bytes + chunk[at + |bytes|..]
  }

  lemma OverwriteMore(chunk: seq<Byte>, at: nat, x: seq<Byte>, y: seq<Byte>)
    requires at + |x| + |y| <= |chunk|
    ensures Overwritten(Overwritten(chunk, at, x), at + |x|, y) == Overwritten(chunk, at, x + y)
  {
  }

  lemma OverwriteElsewhere(chunk: seq<Byte>, at: nat, bytes: seq<Byte>, low: nat, high: nat)
    requires at + |bytes| <= |chunk| && low <= high <= |chunk| && (high <= at || at + |bytes| <= low)
    ensures Overwritten(chunk, at, bytes)[low..high] == chunk[low..high]
  {
  }

  lemma OverwriteNothing(chunk: seq<Byte>, at: nat)
    requires at <= |chunk|
    ensures Overwritten(chunk, at, []) == chunk
  {
  }

  lemma StorePointer(chunk: seq<Byte>, i: nat, a: nat)
    requires POINTER_SIZE * (i + 1) <= |chunk| && a < ADDRESS_LIMIT
    ensures PointerAt(Overwritten(chunk, POINTER_SIZE * i, Encode(a, POINTER_SIZE)), i) == a
    ensures forall j: nat :: j != i && POINTER_SIZE * (j + 1) <= |chunk| ==>
      PointerAt(Overwritten(chunk, POINTER_SIZE * i, Encode(a, POINTER_SIZE)), j) == PointerAt(chunk, j)
  {
    EightBytes();
    DecodeEncode(a, POINTER_SIZE);
    var r := Overwritten(chunk, POINTER_SIZE * i, Encode(a, POINTER_SIZE));
    assert r[POINTER_SIZE * i..POINTER_SIZE * (i + 1)] == Encode(a, POINTER_SIZE);
    forall j: nat | j != i && POINTER_SIZE * (j + 1) <= |chunk| ensures PointerAt(r, j) == PointerAt(chunk, j) {
      assert r[POINTER_SIZE * j..POINTER_SIZE * (j + 1)] == chunk[POINTER_SIZE * j..POINTER_SIZE * (j + 1)];
    }
  }

  // ---------------------------------------------------------------------------------------
  // How many chunks a size needs

  /** The bytes a buffer of one master chunk and k more chunks can hold. */
  function CapacityOf(chunkSize: nat, k: nat): int {
    chunkSize * (k + 1) - POINTER_SIZE * k
  }

  function AdditionalChunks(size: nat, chunkSize: nat): nat
    requires size > chunkSize ==> chunkSize > POINTER_SIZE
  {
    if size > chunkSize then
      var netCapacityIncrease := chunkSize - POINTER_SIZE;
      (size - chunkSize + netCapacityIncrease - 1) / netCapacityIncrease
    else 0
  }

  lemma AdditionalChunksPositive(size: nat, chunkSize: nat)
    requires size > chunkSize > POINTER_SIZE
    ensures AdditionalChunks(size, chunkSize) > 0
  {
    CeilDiv(size - chunkSize, chunkSize - POINTER_SIZE);
  }

  /** The chunk count is the least that holds the size. */
  lemma AdditionalChunksIsLeast(size: nat, chunkSize: nat, k: nat)
    requires size > chunkSize ==> chunkSize > POINTER_SIZE
    ensures CapacityOf(chunkSize, AdditionalChunks(size, chunkSize)) >= size
    ensures k < AdditionalChunks(size, chunkSize) ==> CapacityOf(chunkSize, k) < size
  {
    if size > chunkSize {
      var net := chunkSize - POINTER_SIZE;
      var least := AdditionalChunks(size, chunkSize);
      CeilDiv(size - chunkSize, net);
      assert CapacityOf(chunkSize, least) == chunkSize + net * least;
      assert CapacityOf(chunkSize, k) == chunkSize + net * k;
      if k < least { MulMonotone(k, least - 1, net); }
    }
  }

  predicate Feasible(size: nat, chunkSize: nat, k: nat) {
    POINTER_SIZE * k <= chunkSize && CapacityOf(chunkSize, k) >= size
  }

  /** The tests made before any chunk is taken. */
  predicate CanFit(size: nat, chunkSize: nat) {
    size > chunkSize ==>
      chunkSize > POINTER_SIZE && AdditionalChunks(size, chunkSize) * POINTER_SIZE <= chunkSize
  }

  /** A size is refused outright exactly when no number of chunks could hold it. */
  lemma CanFitIff(size: nat, chunkSize: nat)
    ensures CanFit(size, chunkSize) <==> exists k: nat :: Feasible(size, chunkSize, k)
  {
    if CanFit(size, chunkSize) {
      AdditionalChunksIsLeast(size, chunkSize, 0);
      assert Feasible(size, chunkSize, AdditionalChunks(size, chunkSize));
    } else {
      forall k: nat ensures !Feasible(size, chunkSize, k) {
        assert CapacityOf(chunkSize, k) == chunkSize + (chunkSize - POINTER_SIZE) * k;
        if chunkSize > POINTER_SIZE { AdditionalChunksIsLeast(size, chunkSize, k); }
      }
    }
  }

  // ---------------------------------------------------------------------------------------
  // The flat view of a chunk list

  predicate MemoryOk(m: Memory, chunkSize: nat) {
    chunkSize > 0 && forall a :: a in m ==> 0 < a < ADDRESS_LIMIT && |m[a]| == chunkSize
  }

  /** The first chunk of the list holds the addresses of the others. */
  ghost predicate ListOk(m: Memory, chunkSize: nat, list: seq<nat>) {
    && MemoryOk(m, chunkSize)
    && list != [] && POINTER_SIZE * (|list| - 1) <= chunkSize
    && (forall i, j :: 0 <= i < j < |list| ==> list[i] != list[j])
    && (forall i :: 0 <= i < |list| ==> list[i] in m)
    && (forall i :: 0 <= i < |list| - 1 ==> PointerAt(m[list[0]], i) == list[i + 1])
  }

  function DataOffset(list: seq<nat>): nat
    requires list != []
  {
    POINTER_SIZE * (|list| - 1)
  }

  function ChunkIndex(shifted: nat, chunkSize: nat): nat
    requires chunkSize > 0
  {
    shifted / chunkSize
  }

  function OffsetInChunk(shifted: nat, chunkSize: nat): (offset: nat)
    requires chunkSize > 0
    ensures offset < chunkSize
  {
    shifted % chunkSize
  }

  /** The byte at a distance from the start of the chunk list. Past the list there is nothing. */
  function ByteAt(m: Memory, chunkSize: nat, list: seq<nat>, shifted: nat): Byte
    requires MemoryOk(m, chunkSize)
  {
    var index := ChunkIndex(shifted, chunkSize);
    if index < |list| && list[index] in m then m[list[index]][OffsetInChunk(shifted, chunkSize)] else 0
  }

  /** The first n data bytes of a chunk list. */
  function Flat(m: Memory, chunkSize: nat, list: seq<nat>, n: nat): (r: seq<Byte>)
    requires MemoryOk(m, chunkSize) && list != []
    ensures |r| == n
    ensures forall p :: 0 <= p < n ==> r[p] == ByteAt(m, chunkSize, list, p + DataOffset(list))
  {
    seq(n, p requires 0 <= p => ByteAt(m, chunkSize, list, p + DataOffset(list)))
  }

  lemma PositionInList(p: nat, chunkSize: nat, list: seq<nat>)
    requires list != [] && chunkSize > 0 && p < CapacityOf(chunkSize, |list| - 1)
    ensures ChunkIndex(p + DataOffset(list), chunkSize) < |list|
  {
    DivBelow(p + DataOffset(list), chunkSize, |list|);
  }

  /** A block does not leave its chunk. */
  lemma InBlock(shifted: nat, i: nat, chunkSize: nat)
    requires chunkSize > 0 && OffsetInChunk(shifted, chunkSize) + i < chunkSize
    ensures ChunkIndex(shifted + i, chunkSize) == ChunkIndex(shifted, chunkSize)
    ensures OffsetInChunk(shifted + i, chunkSize) == OffsetInChunk(shifted, chunkSize) + i
  {
    DivModUnique(shifted + i, chunkSize, shifted / chunkSize, shifted % chunkSize + i);
  }

  /** Distances in the same chunk are ordered as their offsets. */
  lemma SameChunk(x: nat, y: nat, chunkSize: nat)
    requires chunkSize > 0 && ChunkIndex(x, chunkSize) == ChunkIndex(y, chunkSize)
    ensures x - y == OffsetInChunk(x, chunkSize) - OffsetInChunk(y, chunkSize)
  {
  }

  /** Data in the master chunk is behind the pointers. */
  lemma BehindPointers(p: nat, chunkSize: nat, list: seq<nat>)
    requires list != [] && chunkSize > 0 && ChunkIndex(p + DataOffset(list), chunkSize) == 0
    ensures OffsetInChunk(p + DataOffset(list), chunkSize) == p + DataOffset(list)
  {
  }

  /** Writing a block of bytes into the chunk that holds position p. */
  function BlockWritten(m: Memory, chunkSize: nat, list: seq<nat>, shifted: nat, bytes: seq<Byte>): Memory
    requires MemoryOk(m, chunkSize)
    requires ChunkIndex(shifted, chunkSize) < |list| && list[ChunkIndex(shifted, chunkSize)] in m
    requires OffsetInChunk(shifted, chunkSize) + |bytes| <= chunkSize
  {
    var a := list[ChunkIndex(shifted, chunkSize)];
    m[a := Overwritten(m[a], OffsetInChunk(shifted, chunkSize), bytes)]
  }

  /** A block write keeps the pointers of its list, whatever the bytes are. */
  lemma BlockKeepsList(m: Memory, chunkSize: nat, list: seq<nat>, p: nat, bytes: seq<Byte>)
    requires ListOk(m, chunkSize, list) && p < CapacityOf(chunkSize, |list| - 1)
    requires OffsetInChunk(p + DataOffset(list), chunkSize) + |bytes| <= chunkSize
    ensures ChunkIndex(p + DataOffset(list), chunkSize) < |list|
    ensures ListOk(BlockWritten(m, chunkSize, list, p + DataOffset(list), bytes), chunkSize, list)
  {
    hide ChunkIndex, OffsetInChunk, Decode;
    PositionInList(p, chunkSize, list);
    var shifted := p + DataOffset(list);
    var m' := BlockWritten(m, chunkSize, list, shifted, bytes);
    var index := ChunkIndex(shifted, chunkSize);
    var before, after := m[list[0]], m'[list[0]];
    if index == 0 { BehindPointers(p, chunkSize, list); }
    assert after[..DataOffset(list)] == before[..DataOffset(list)];
    forall i | 0 <= i < |list| - 1 ensures PointerAt(after, i) == PointerAt(before, i) {
      SlicesAgree(after, before, DataOffset(list), POINTER_SIZE * i, POINTER_SIZE * (i + 1));
    }
  }

  lemma SlicesJoin(s: seq<Byte>, a: nat, b: nat, c: nat)
    requires a <= b <= c <= |s|
    ensures s[a..b] + s[b..c] == s[a..c]
  {
  }

  lemma SliceOfSlice(s: seq<Byte>, a: nat, b: nat, lo: nat, hi: nat)
    requires a <= b <= |s| && lo <= hi <= b - a
    ensures s[a..b][lo..hi] == s[a + lo..a + hi]
  {
    var x, y := s[a..b][lo..hi], s[a + lo..a + hi];
    forall i | 0 <= i < hi - lo ensures x[i] == y[i] {}
  }

  lemma SlicesAgree(a: seq<Byte>, b: seq<Byte>, n: nat, lo: nat, hi: nat)
    requires lo <= hi <= n <= |a| && n <= |b| && a[..n] == b[..n]
    ensures a[lo..hi] == b[lo..hi]
  {
    assert a[lo..hi] == a[..n][lo..hi];
    assert b[lo..hi] == b[..n][lo..hi];
  }

  /** A block write changes exactly the bytes from position p on, in the flat view. */
  lemma BlockIsOverwrite(m: Memory, chunkSize: nat, list: seq<nat>, n: nat, p: nat, bytes: seq<Byte>)
    requires ListOk(m, chunkSize, list) && n <= CapacityOf(chunkSize, |list| - 1)
    requires p < n && p + |bytes| <= n
    requires OffsetInChunk(p + DataOffset(list), chunkSize) + |bytes| <= chunkSize
    ensures ChunkIndex(p + DataOffset(list), chunkSize) < |list|
    ensures MemoryOk(BlockWritten(m, chunkSize, list, p + DataOffset(list), bytes), chunkSize)
    ensures Flat(BlockWritten(m, chunkSize, list, p + DataOffset(list), bytes), chunkSize, list, n)
      == Overwritten(Flat(m, chunkSize, list, n), p, bytes)
  {
    hide ChunkIndex, OffsetInChunk, Decode, Flat;
    BlockKeepsList(m, chunkSize, list, p, bytes);
    var shift := DataOffset(list);
    var m' := BlockWritten(m, chunkSize, list, p + shift, bytes);
    var before, after := Flat(m, chunkSize, list, n), Flat(m', chunkSize, list, n);
    forall q | 0 <= q < n ensures after[q] == Overwritten(before, p, bytes)[q] {
      PositionInList(q, chunkSize, list);
      if p <= q < p + |bytes| {
        InBlock(p + shift, q - p, chunkSize);
      } else if ChunkIndex(q + shift, chunkSize) == ChunkIndex(p + shift, chunkSize) {
        SameChunk(q + shift, p + shift, chunkSize);
      }
    }
  }

  /** The bytes of a block are the bytes of the flat view. */
  lemma BlockIsSlice(m: Memory, chunkSize: nat, list: seq<nat>, n: nat, p: nat, count: nat)
    requires ListOk(m, chunkSize, list) && n <= CapacityOf(chunkSize, |list| - 1)
    requires p < n && p + count <= n
    requires OffsetInChunk(p + DataOffset(list), chunkSize) + count <= chunkSize
    ensures var shifted := p + DataOffset(list);
      var offset := OffsetInChunk(shifted, chunkSize);
      && ChunkIndex(shifted, chunkSize) < |list|
      && m[list[ChunkIndex(shifted, chunkSize)]][offset..offset + count] == Flat(m, chunkSize, list, n)[p..p + count]
  {
    hide ChunkIndex, OffsetInChunk, Flat;
    PositionInList(p, chunkSize, list);
    var shifted := p + DataOffset(list);
    var offset := OffsetInChunk(shifted, chunkSize);
    var block := m[list[ChunkIndex(shifted, chunkSize)]][offset..offset + count];
    var slice := Flat(m, chunkSize, list, n)[p..p + count];
    forall i | 0 <= i < count ensures block[i] == slice[i] {
      InBlock(shifted, i, chunkSize);
      assert slice[i] == ByteAt(m, chunkSize, list, p + i + DataOffset(list));
      assert p + i + DataOffset(list) == shifted + i;
    }
  }

  /** Chunk lists read only their own chunks. */
  lemma FlatFrame(m: Memory, m': Memory, chunkSize: nat, list: seq<nat>, n: nat)
    requires ListOk(m, chunkSize, list) && MemoryOk(m', chunkSize)
    requires forall i :: 0 <= i < |list| ==> list[i] in m' && m'[list[i]] == m[list[i]]
    ensures ListOk(m', chunkSize, list)
    ensures Flat(m', chunkSize, list, n) == Flat(m, chunkSize, list, n)
  {
    hide ChunkIndex, OffsetInChunk, Decode, Flat;
    var before, after := Flat(m, chunkSize, list, n), Flat(m', chunkSize, list, n);
    forall p | 0 <= p < n ensures after[p] == before[p] {}
  }

  ghost function Elements(list: seq<nat>): set<nat> {
    set i | 0 <= i < |list| :: list[i]
  }

  lemma NoElements()
    ensures Elements([]) == {}
  {
  }

  lemma ElementsAppend(list: seq<nat>, a: nat)
    ensures Elements(list + [a]) == Elements(list) + {a}
  {
    assert (list + [a])[|list|] == a;
    assert forall i :: 0 <= i < |list| ==> (list + [a])[i] == list[i];
  }

  lemma ElementsPrepend(a: nat, list: seq<nat>)
    ensures Elements([a] + list) == {a} + Elements(list)
  {
    assert ([a] + list)[0] == a;
    assert forall i :: 0 <= i < |list| ==> ([a] + list)[i + 1] == list[i];
  }

  function Zeros(n: nat): (zeros: seq<Byte>)
    ensures |zeros| == n && forall i :: 0 <= i < n ==> zeros[i] == 0
  {
    seq(n, _ => 0 as Byte)
  }

  lemma {:induction false} DecodeZeros(bytes: seq<Byte>)
    requires forall i :: 0 <= i < |bytes| ==> bytes[i] == 0
    ensures Decode(bytes) == 0
  {
    if bytes != [] { DecodeZeros(bytes[1..]); }
  }

  lemma ZeroPointer(chunk: seq<Byte>, n: nat, i: nat)
    requires POINTER_SIZE * (i + 1) <= n <= |chunk|
    ensures PointerAt(Overwritten(chunk, 0, Zeros(n)), i) == 0
  {
    DecodeZeros(Overwritten(chunk, 0, Zeros(n))[POINTER_SIZE * i..POINTER_SIZE * (i + 1)]);
  }

  lemma ElementsMore(list: seq<nat>, i: nat)
    ensures i < |list| ==> Elements(list[..i + 1]) == Elements(list[..i]) + {list[i]}
    ensures i + 1 == |list| ==> list[..i + 1] == list
    ensures i == 0 && i < |list| ==> Elements(list[..i]) == {}
  {
  }

  function Min(a: nat, b: nat): nat {
    if a < b then a else b
  }

  /** The number of bytes a copy of count bytes at an offset touches. */
  function CopyLength(size: nat, offset: nat, count: nat): nat {
    Min(count, if size > offset then size - offset else 0)
  }

  /** The number of bytes copied from one size and offset to another. */
  function BetweenLength(sourceSize: nat, sourceOffset: nat, size: nat, offset: nat, len: nat): nat {
    if sourceOffset >= sourceSize then 0 else CopyLength(size, offset, Min(len, sourceSize - sourceOffset))
  }

  /** Two ranges of n bytes do not overlap. */
  predicate Separate(a: nat, b: nat, n: nat) {
    a + n <= b || b + n <= a
  }

  // ---------------------------------------------------------------------------------------
  // The pool and the buffer

  class Pool {
    const elementSize: nat
    var memory: Memory
    var free: set<nat>
    /** How often the pool has had no chunk to give. */
    ghost var refusals: nat

    ghost predicate Valid()
      reads this
    {
      MemoryOk(memory, elementSize) && free <= memory.Keys
    }

    constructor (elementSize: nat, addresses: set<nat>)
      requires elementSize > 0 && forall a :: a in addresses ==> 0 < a < ADDRESS_LIMIT
      ensures Valid() && free == memory.Keys == addresses && this.elementSize == elementSize
    {
      this.elementSize := elementSize;
      memory := map a | a in addresses :: seq(elementSize, _ => 0 as Byte);
      free := addresses;
      refusals := 0;
    }

    /** Takes a free chunk. It may fail at any time, as the pool is shared between threads. */
    method Allocate() returns (a: nat)
      requires Valid()
      modifies this`free, this`refusals
      ensures Valid()
      ensures a == 0 ==> free == old(free) && refusals == old(refusals) + 1
      ensures a != 0 ==> a in old(free) && free == old(free) - {a} && refusals == old(refusals)
    {
      var contended := *;
      if free == {} || contended {
        refusals := refusals + 1;
        return 0;
      }
      a :| a in free;
      free := free - {a};
    }

    method Free(a: nat)
      requires Valid() && (a == 0 || (a in memory && a !in free))
      modifies this`free
      ensures Valid() && free == if a == 0 then old(free) else old(free) + {a}
    {
      if a == 0 {
        return;
      }
      free := free + {a};
    }
  }

  class PoolBuffer {
    const pool: Pool
    var masterChunk: nat
    var size: nat
    var numAdditionalChunks: nat
    var firstChunkDataOffset: nat
    /** The master chunk and the chunks it points to. */
    ghost var list: seq<nat>

    ghost predicate Valid()
      reads this, pool
    {
      && pool.Valid()
      && (masterChunk == 0 ==> list == [] && size == 0)
      && (masterChunk != 0 ==>
        && ListOk(pool.memory, pool.elementSize, list)
        && list[0] == masterChunk && |list| == numAdditionalChunks + 1
        && firstChunkDataOffset == DataOffset(list)
        && size <= CapacityOf(pool.elementSize, numAdditionalChunks))
      && (forall i :: 0 <= i < |list| ==> list[i] !in pool.free)
      && (numAdditionalChunks > 0 || firstChunkDataOffset == 0)
    }

    lemma ValidHasMaster()
      requires Valid()
      ensures pool.elementSize > 0 && (size > 0 ==> masterChunk != 0)
    {
    }

    ghost function Contents(): (contents: seq<Byte>)
      requires Valid()
      reads this, pool
      ensures |contents| == size
    {
      if masterChunk == 0 then [] else Flat(pool.memory, pool.elementSize, list, size)
    }

    ghost function Chunks(): set<nat>
      reads this
    {
      Elements(list)
    }

    constructor (pool: Pool)
      requires pool.Valid()
      ensures Valid() && this.pool == pool && Contents() == [] && Chunks() == {}
    {
      this.pool := pool;
      masterChunk, size, numAdditionalChunks, firstChunkDataOffset := 0, 0, 0, 0;
      list := [];
    }

    /** While chunks are being taken: the first pointers are those taken, the others are null. */
    ghost predicate Taking(taken: seq<nat>)
      reads this`masterChunk, this`numAdditionalChunks, pool
    {
      && pool.Valid() && masterChunk in pool.memory && masterChunk !in pool.free
      && |taken| <= numAdditionalChunks && POINTER_SIZE * numAdditionalChunks <= pool.elementSize
      && (forall i :: 0 <= i < |taken| ==> taken[i] in pool.memory && taken[i] !in pool.free && taken[i] != masterChunk)
      && (forall i, j :: 0 <= i < j < |taken| ==> taken[i] != taken[j])
      && (forall i :: 0 <= i < numAdditionalChunks ==>
        PointerAt(pool.memory[masterChunk], i) == if i < |taken| then taken[i] else 0)
    }

    /** Gives every chunk back to the pool, also when only some of them were taken. */
    method Free(ghost taken: seq<nat>)
      requires masterChunk == 0 ==> pool.Valid() && taken == []
      requires masterChunk != 0 ==> Taking(taken)
      modifies this, pool`free
      ensures Valid() && Contents() == [] && Chunks() == {}
      ensures masterChunk == 0 && numAdditionalChunks == 0 && firstChunkDataOffset == 0
      ensures pool.free == old(pool.free) + Elements(taken) + if old(masterChunk) == 0 then {} else {old(masterChunk)}
    {
      hide Decode, PointerAt;
      if masterChunk != 0 {
        var i := 0;
        while i < numAdditionalChunks
          invariant i <= numAdditionalChunks && pool.Valid() && masterChunk !in pool.free
          invariant forall k :: i <= k < |taken| ==> taken[k] !in pool.free
          invariant pool.free == old(pool.free) + Elements(if i < |taken| then taken[..i] else taken)
          modifies pool`free
        {
          ElementsMore(taken, i);
          pool.Free(PointerAt(pool.memory[masterChunk], i));
          i := i + 1;
        }
        pool.Free(masterChunk);
      }
      masterChunk, numAdditionalChunks, size, firstChunkDataOffset := 0, 0, 0, 0;
      list := [];
    }

    function Capacity(): int
      requires Valid()
      reads this, pool
    {
      if masterChunk == 0 then 0 else pool.elementSize * (numAdditionalChunks + 1) - firstChunkDataOffset
    }

    /** Takes chunk i and stores its address in the master chunk, null if there was none. */
    method TakeChunk(i: nat, ghost taken: seq<nat>) returns (a: nat)
      requires masterChunk != 0 && Taking(taken) && i == |taken| < numAdditionalChunks
      modifies pool
      ensures a == 0 ==> Taking(taken) && pool.free == old(pool.free) && pool.refusals > old(pool.refusals)
      ensures a != 0 ==> Taking(taken + [a]) && a in old(pool.free) && pool.free == old(pool.free) - {a}
      ensures a != 0 ==> pool.refusals == old(pool.refusals)
      ensures OthersUntouched(old(pool.memory), pool.memory, {masterChunk})
    {
      hide Decode, PointerAt, Encode, Overwritten;
      a := pool.Allocate();
      var chunk := pool.memory[masterChunk];
      StorePointer(chunk, i, a);
      pool.memory := pool.memory[masterChunk := Overwritten(chunk, POINTER_SIZE * i, Encode(a, POINTER_SIZE))];
    }

    /** Takes the master chunk and clears the pointers that will be stored in it. */
    method TakeMaster() returns (ok: bool)
      requires pool.Valid() && masterChunk == 0 && POINTER_SIZE * numAdditionalChunks <= pool.elementSize
      requires firstChunkDataOffset == POINTER_SIZE * numAdditionalChunks
      modifies this`masterChunk, pool
      ensures pool.Valid()
      ensures !ok ==> masterChunk == 0 && pool.free == old(pool.free) && pool.memory == old(pool.memory)
      ensures if ok then pool.refusals == old(pool.refusals) else pool.refusals > old(pool.refusals)
      ensures ok ==> masterChunk != 0 && Taking([])
      ensures ok ==> masterChunk in old(pool.free) && pool.free == old(pool.free) - {masterChunk}
      ensures ok ==> OthersUntouched(old(pool.memory), pool.memory, {masterChunk})
    {
      hide Decode, PointerAt, Overwritten;
      masterChunk := pool.Allocate();
      if masterChunk == 0 {
        return false;
      }
      var chunk := pool.memory[masterChunk];
      forall i | 0 <= i < numAdditionalChunks
        ensures PointerAt(Overwritten(chunk, 0, Zeros(firstChunkDataOffset)), i) == 0
      {
        ZeroPointer(chunk, firstChunkDataOffset, i);
      }
      pool.memory := pool.memory[masterChunk := Overwritten(chunk, 0, Zeros(firstChunkDataOffset))];
      return true;
    }

    /** Takes the chunks a size needs, or gives back those it took. */
    method Grow(requested: nat) returns (ok: bool)
      requires Valid() && masterChunk == 0 && requested > 0
      modifies this, pool
      ensures Valid()
      ensures ok ==> size == requested && masterChunk != 0 && CanFit(requested, pool.elementSize)
      ensures ok ==> numAdditionalChunks == AdditionalChunks(requested, pool.elementSize)
      ensures !ok ==> masterChunk == 0 && Chunks() == {}
      ensures ok <==> CanFit(requested, pool.elementSize) && pool.refusals == old(pool.refusals)
      ensures pool.refusals >= old(pool.refusals)
      ensures pool.free + Chunks() == old(pool.free)
      ensures OthersUntouched(old(pool.memory), pool.memory, old(pool.free))
    {
      hide Decode, PointerAt, Flat, CapacityOf, ListOk, Elements, OthersUntouched, Taking;
      ghost var memory, free := pool.memory, pool.free;
      UntouchedSelf(memory, free);
      NoElements();
      var chunkSize := pool.elementSize;
      firstChunkDataOffset, numAdditionalChunks := 0, 0;
      if requested > chunkSize {
        if chunkSize <= POINTER_SIZE {
          return false;
        }
        var netCapacityIncrease := chunkSize - POINTER_SIZE;
        numAdditionalChunks := (requested - chunkSize + netCapacityIncrease - 1) / netCapacityIncrease;
        firstChunkDataOffset := numAdditionalChunks * POINTER_SIZE;
        AdditionalChunksPositive(requested, chunkSize);
        if firstChunkDataOffset > chunkSize {
          return false;
        }
      }
      assert numAdditionalChunks == AdditionalChunks(requested, chunkSize);
      var taken := TakeMaster();
      if !taken {
        return false;
      }
      UntouchedMore(memory, memory, pool.memory, {masterChunk}, free);
      ok := TakeChunks(memory, free);
      if ok {
        AdditionalChunksIsLeast(requested, chunkSize, 0);
        size := requested;
      }
    }

    /** Takes the additional chunks; when one is missing, gives back all of them and the master chunk. */
    method TakeChunks(ghost memory: Memory, ghost free: set<nat>) returns (ok: bool)
      requires masterChunk != 0 && Taking([]) && masterChunk in free && pool.free == free - {masterChunk}
      requires firstChunkDataOffset == POINTER_SIZE * numAdditionalChunks && size == 0
      requires OthersUntouched(memory, pool.memory, free)
      modifies this, pool
      ensures !ok ==> Valid() && masterChunk == 0 && Chunks() == {} && pool.refusals > old(pool.refusals)
      ensures ok ==> masterChunk != 0 && numAdditionalChunks == old(numAdditionalChunks) && ValidFor(0)
      ensures ok ==> pool.refusals == old(pool.refusals)
      ensures pool.free + Chunks() == free
      ensures OthersUntouched(memory, pool.memory, free)
    {
      hide Decode, PointerAt, Flat, CapacityOf, ListOk, OthersUntouched, Elements, Taking;
      ghost var taken: seq<nat> := [];
      NoElements();
      var i := 0;
      while i < numAdditionalChunks
        invariant i == |taken| <= numAdditionalChunks && Taking(taken) && pool.refusals == old(pool.refusals)
        invariant pool.free + Elements(taken) == free - {masterChunk}
        invariant OthersUntouched(memory, pool.memory, free)
        modifies pool
      {
        ghost var middle := pool.memory;
        var a := TakeChunk(i, taken);
        UntouchedMore(memory, middle, pool.memory, {masterChunk}, free);
        if a == 0 {
          break;
        }
        ElementsAppend(taken, a);
        taken := taken + [a];
        i := i + 1;
      }
      if i < numAdditionalChunks {
        Free(taken);
        return false;
      }
      list := [masterChunk] + taken;
      ElementsPrepend(masterChunk, taken);
      assert pool.free + Chunks() == (free - {masterChunk}) + {masterChunk};
      TakenIsList(taken);
      return true;
    }

    /** Everything Valid says, for a size to be set next. */
    ghost predicate ValidFor(n: nat)
      reads this, pool
    {
      && pool.Valid() && masterChunk != 0
      && ListOk(pool.memory, pool.elementSize, list)
      && list[0] == masterChunk && |list| == numAdditionalChunks + 1
      && firstChunkDataOffset == DataOffset(list)
      && n <= CapacityOf(pool.elementSize, numAdditionalChunks)
      && (forall i :: 0 <= i < |list| ==> list[i] !in pool.free)
    }

    lemma TakenIsList(taken: seq<nat>)
      requires masterChunk != 0 && Taking(taken) && |taken| == numAdditionalChunks && list == [masterChunk] + taken
      requires firstChunkDataOffset == POINTER_SIZE * numAdditionalChunks
      ensures ValidFor(0)
    {
      hide Decode, PointerAt;
    }

    lemma ListIsTaken()
      requires Valid() && masterChunk != 0
      ensures Taking(list[1..])
    {
      hide Decode, PointerAt, CapacityOf;
    }

    /**
      Makes the buffer hold a size. Chunks are taken only when the capacity is too small, and then the
      least number that fits. On failure the buffer is empty and every chunk is back in the pool.
     */
    method Allocate(requested: nat) returns (ok: bool)
      requires Valid()
      modifies this, pool
      ensures Valid()
      ensures ok ==> size == requested
      ensures !ok ==> Contents() == [] && Chunks() == {} && pool.free == old(pool.free + Chunks())
      ensures pool.free + Chunks() == old(pool.free + Chunks())
      ensures requested <= old(Capacity()) ==> ok && Chunks() == old(Chunks())
      ensures requested <= old(size) ==> Contents() == old(Contents())[..requested]
      ensures old(size) <= requested <= old(Capacity()) ==> old(Contents()) <= Contents()
      ensures requested > old(Capacity()) && ok ==>
        numAdditionalChunks == AdditionalChunks(requested, pool.elementSize)
      ensures ok <==>
        (requested <= old(Capacity()) || (CanFit(requested, pool.elementSize) && pool.refusals == old(pool.refusals)))
      ensures OthersUntouched(old(pool.memory), pool.memory, old(pool.free + Chunks()))
    {
      hide Decode, PointerAt, Flat, ListOk, Elements, OthersUntouched, Taking;
      UntouchedSelf(pool.memory, pool.free + Chunks());
      if requested > Capacity() {
        if masterChunk != 0 {
          ListIsTaken();
          ElementsPrepend(masterChunk, list[1..]);
          assert list == [masterChunk] + list[1..];
          Free(list[1..]);
        } else {
          NoElements();
          Free([]);
        }
        ok := Grow(requested);
        return;
      }
      size := requested;
      return true;
    }

    /** The chunk with a given index, found through the pointers in the master chunk. */
    function ChunkAddress(index: nat): nat
      requires masterChunk in pool.memory
      requires index > 0 ==> POINTER_SIZE * index <= |pool.memory[masterChunk]|
      reads this, pool
    {
      if index == 0 then masterChunk else PointerAt(pool.memory[masterChunk], index - 1)
    }

    /** Reads one block, from the chunk found through the pointers of the master chunk. */
    method ReadBlock(shifted: nat, block: nat, ghost p: nat) returns (bytes: seq<Byte>)
      requires Valid() && masterChunk != 0 && shifted == p + firstChunkDataOffset
      requires p < size && p + block <= size
      requires OffsetInChunk(shifted, pool.elementSize) + block <= pool.elementSize
      ensures bytes == Contents()[p..p + block]
    {
      hide ChunkIndex, OffsetInChunk, Flat, Decode, CapacityOf;
      BlockIsSlice(pool.memory, pool.elementSize, list, size, p, block);
      var address := ChunkAddress(ChunkIndex(shifted, pool.elementSize));
      var offsetInChunk := OffsetInChunk(shifted, pool.elementSize);
      bytes := pool.memory[address][offsetInChunk..offsetInChunk + block];
    }

    /** Copies bytes out of the buffer. */
    method CopyTo(sourceOffset: nat, count: nat) returns (bytes: seq<Byte>)
      requires Valid()
      ensures |bytes| == CopyLength(size, sourceOffset, count)
      ensures |bytes| > 0 ==> bytes == Contents()[sourceOffset..sourceOffset + |bytes|]
    {
      hide ChunkIndex, OffsetInChunk, Valid, Contents;
      ValidHasMaster();
      bytes := [];
      var remaining := Min(count, if size > sourceOffset then size - sourceOffset else 0);
      if masterChunk == 0 || remaining == 0 {
        return;
      }
      var shifted := sourceOffset + firstChunkDataOffset;
      while |bytes| < remaining
        invariant |bytes| <= remaining && shifted == sourceOffset + |bytes| + firstChunkDataOffset
        invariant bytes == Contents()[sourceOffset..sourceOffset + |bytes|]
      {
        var block := Min(remaining - |bytes|, pool.elementSize - OffsetInChunk(shifted, pool.elementSize));
        var more := ReadBlock(shifted, block, sourceOffset + |bytes|);
        SlicesJoin(Contents(), sourceOffset, sourceOffset + |bytes|, sourceOffset + |bytes| + block);
        bytes := bytes + more;
        shifted := shifted + block;
      }
    }

    /** Copies bytes into the buffer, as many as fit behind the offset. */
    method CopyFrom(source: seq<Byte>, destinationOffset: nat) returns (copied: nat)
      requires Valid()
      modifies pool`memory
      ensures Valid()
      ensures copied == CopyLength(size, destinationOffset, |source|)
      ensures Contents() == if copied == 0 then old(Contents())
        else Overwritten(old(Contents()), destinationOffset, source[0..copied])
      ensures OthersUntouched(old(pool.memory), pool.memory, Chunks())
    {
      hide ChunkIndex, OffsetInChunk, Valid, Contents, Overwritten, OthersUntouched, Chunks;
      ValidHasMaster();
      copied := 0;
      ghost var before, memory := Contents(), pool.memory;
      UntouchedSelf(memory, Chunks());
      var remaining := Min(|source|, if size > destinationOffset then size - destinationOffset else 0);
      if masterChunk == 0 || remaining == 0 {
        return;
      }
      var elementSize := pool.elementSize;
      var shifted := destinationOffset + firstChunkDataOffset;
      OverwriteNothing(before, destinationOffset);
      assert source[0..0] == [];
      while copied < remaining
        invariant Valid() && copied <= remaining && shifted == destinationOffset + copied + firstChunkDataOffset
        invariant Contents() == Overwritten(before, destinationOffset, source[0..copied])
        invariant OthersUntouched(memory, pool.memory, Chunks())
      {
        var offsetInChunk := OffsetInChunk(shifted, elementSize);
        var block := Min(remaining - copied, elementSize - offsetInChunk);
        ghost var middle := pool.memory;
        WriteBlock(shifted, source[copied..copied + block], before, destinationOffset, source[0..copied]);
        UntouchedBoth(memory, middle, pool.memory, Chunks());
        SlicesJoin(source, 0, copied, copied + block);
        copied := copied + block;
        shifted := shifted + block;
      }
    }

    /**
      Continues an overwrite that started at offset start and has written done: writes one more block,
      into the chunk found through the pointers of the master chunk.
     */
    method WriteBlock(shifted: nat, bytes: seq<Byte>, ghost before: seq<Byte>, ghost start: nat, ghost done: seq<Byte>)
      requires Valid() && masterChunk != 0 && shifted == start + |done| + firstChunkDataOffset
      requires start + |done| < size && start + |done| + |bytes| <= size == |before|
      requires OffsetInChunk(shifted, pool.elementSize) + |bytes| <= pool.elementSize
      requires Contents() == Overwritten(before, start, done)
      modifies pool`memory
      ensures Valid() && Contents() == Overwritten(before, start, done + bytes)
      ensures OthersUntouched(old(pool.memory), pool.memory, Chunks())
    {
      hide ChunkIndex, OffsetInChunk, Flat, Decode, CapacityOf, Overwritten;
      BlockKeepsList(pool.memory, pool.elementSize, list, start + |done|, bytes);
      BlockIsOverwrite(pool.memory, pool.elementSize, list, size, start + |done|, bytes);
      OverwriteMore(before, start, done, bytes);
      var address := ChunkAddress(ChunkIndex(shifted, pool.elementSize));
      var chunk := Overwritten(pool.memory[address], OffsetInChunk(shifted, pool.elementSize), bytes);
      assert address in Chunks();
      pool.memory := pool.memory[address := chunk];
    }

    /** Continues an overwrite with one block of another buffer. */
    method CopyBlock(sourceBuffer: PoolBuffer, sourceOffset: nat, block: nat, shifted: nat,
        ghost before: seq<Byte>, ghost start: nat, ghost done: seq<Byte>, ghost memory: Memory)
      requires Valid() && masterChunk != 0 && shifted == start + |done| + firstChunkDataOffset
      requires start + |done| < size && start + |done| + block <= size == |before|
      requires OffsetInChunk(shifted, pool.elementSize) + block <= pool.elementSize
      requires Contents() == Overwritten(before, start, done)
      requires sourceBuffer.Valid() && 0 < block && sourceOffset + block <= sourceBuffer.size
      requires sourceBuffer != this && sourceBuffer.pool == pool ==> sourceBuffer.Chunks() !! Chunks()
      requires OthersUntouched(memory, pool.memory, Chunks())
      modifies pool`memory
      ensures Valid() && Contents() ==
        Overwritten(before, start, done + old(sourceBuffer.Contents())[sourceOffset..sourceOffset + block])
      ensures sourceBuffer.Valid()
      ensures sourceBuffer != this ==> sourceBuffer.Contents() == old(sourceBuffer.Contents())
      ensures OthersUntouched(memory, pool.memory, Chunks())
    {
      hide ChunkIndex, OffsetInChunk, Valid, Contents, Overwritten, OthersUntouched, Chunks;
      var bytes := sourceBuffer.CopyTo(sourceOffset, block);
      ghost var middle := pool.memory;
      WriteBlock(shifted, bytes, before, start, done);
      UntouchedBoth(memory, middle, pool.memory, Chunks());
      if sourceBuffer != this { sourceBuffer.KeptBy(this); }
    }

    /**
      Copies bytes from another buffer, of the same pool or of one with other chunks, or from elsewhere
      in this buffer.
     */
    method CopyFromBuffer(sourceBuffer: PoolBuffer, sourceOffset: nat, len: nat, destinationOffset: nat)
      returns (copied: nat)
      requires Valid() && sourceBuffer.Valid()
      requires sourceBuffer != this && sourceBuffer.pool == pool ==> sourceBuffer.Chunks() !! Chunks()
      requires sourceBuffer == this ==>
        Separate(sourceOffset, destinationOffset, BetweenLength(size, sourceOffset, size, destinationOffset, len))
      modifies pool`memory
      ensures Valid() && sourceBuffer.Valid()
      ensures sourceBuffer != this ==> sourceBuffer.Contents() == old(sourceBuffer.Contents())
      ensures copied == BetweenLength(sourceBuffer.size, sourceOffset, size, destinationOffset, len)
      ensures Contents() == if copied == 0 then old(Contents())
        else Overwritten(old(Contents()), destinationOffset,
          old(sourceBuffer.Contents())[sourceOffset..sourceOffset + copied])
      ensures OthersUntouched(old(pool.memory), pool.memory, Chunks())
    {
      hide ChunkIndex, OffsetInChunk, Valid, Contents, Overwritten, OthersUntouched, Chunks;
      ValidHasMaster();
      copied := 0;
      ghost var before, memory := Contents(), pool.memory;
      UntouchedSelf(memory, Chunks());
      if destinationOffset >= size || sourceOffset >= sourceBuffer.size {
        return;
      }
      var bytesToCopy := Min(Min(len, sourceBuffer.size - sourceOffset), size - destinationOffset);
      if bytesToCopy == 0 {
        return;
      }
      ghost var source := sourceBuffer.Contents();
      ghost var wanted := source[sourceOffset..sourceOffset + bytesToCopy];
      OverwriteNothing(before, destinationOffset);
      assert wanted[0..0] == [];
      var shifted := destinationOffset + firstChunkDataOffset;
      while copied < bytesToCopy
        invariant Valid() && sourceBuffer.Valid() && (sourceBuffer != this ==> sourceBuffer.Contents() == source)
        invariant copied <= bytesToCopy && shifted == destinationOffset + copied + firstChunkDataOffset
        invariant Contents() == Overwritten(before, destinationOffset, wanted[0..copied])
        invariant OthersUntouched(memory, pool.memory, Chunks())
      {
        var offsetInChunk := OffsetInChunk(shifted, pool.elementSize);
        var block := Min(bytesToCopy - copied, pool.elementSize - offsetInChunk);
        ghost var low, high := sourceOffset + copied, sourceOffset + copied + block;
        if sourceBuffer == this { OverwriteElsewhere(before, destinationOffset, wanted[0..copied], low, high); }
        CopyBlock(sourceBuffer, sourceOffset + copied, block, shifted,
          before, destinationOffset, wanted[0..copied], memory);
        SliceOfSlice(source, sourceOffset, sourceOffset + bytesToCopy, copied, copied + block);
        SlicesJoin(wanted, 0, copied, copied + block);
        copied := copied + block;
        shifted := shifted + block;
      }
      assert wanted[0..copied] == wanted;
    }

    /** A buffer is unchanged when only chunks of others were written. */
    twostate lemma KeptBy(writer: PoolBuffer)
      requires old(Valid()) && writer.Valid()
      requires unchanged(this) && unchanged(writer.pool`free)
      requires writer.pool != pool ==> unchanged(pool)
      requires writer.pool == pool ==> Chunks() !! writer.Chunks()
      requires OthersUntouched(old(writer.pool.memory), writer.pool.memory, writer.Chunks())
      ensures Valid() && Contents() == old(Contents())
    {
      hide Flat, Decode, CapacityOf;
      if writer.pool == pool && masterChunk != 0 {
        assert forall i :: 0 <= i < |list| ==> list[i] in Chunks();
        FlatFrame(old(pool.memory), pool.memory, pool.elementSize, list, size);
      }
    }
  }

  /** Only the given chunks differ between two memories. */
  ghost predicate OthersUntouched(before: Memory, after: Memory, chunks: set<nat>) {
    after.Keys == before.Keys && forall a :: a in before && a !in chunks ==> after[a] == before[a]
  }

  lemma UntouchedSelf(m: Memory, chunks: set<nat>)
    ensures OthersUntouched(m, m, chunks)
  {
  }

  lemma UntouchedMore(before: Memory, middle: Memory, after: Memory, chunks: set<nat>, more: set<nat>)
    requires OthersUntouched(before, middle, more) && OthersUntouched(middle, after, chunks) && chunks <= more
    ensures OthersUntouched(before, after, more)
  {
  }

  lemma UntouchedBoth(before: Memory, middle: Memory, after: Memory, chunks: set<nat>)
    requires OthersUntouched(before, middle, chunks) && OthersUntouched(middle, after, chunks)
    ensures OthersUntouched(before, after, chunks)
  {
  }
}
