/** The fixed-size block allocator of memory-pool/src/mempool.c: one arena, a
    header in front of every block, two lists, and running statistics. */
module Mempool {
  import opened Wire
  import opened BlockLists

  const ALIGNMENT := 8
  const HEADER := 32    // sizeof(mempool_block_t), aligned

  datatype Status = Ok | DoubleFree | Corrupted

  function AlignUp(n: nat): (r: nat)
    ensures n <= r < n + ALIGNMENT && r % ALIGNMENT == 0
  {
    (n + ALIGNMENT - 1) / ALIGNMENT * ALIGNMENT
  }

  // ---- addresses ----

  /** Address of the data of block b in an arena at `base`. */
  function DataAddress(base: nat, blockSize: nat, b: nat): (ptr: nat)
    ensures ptr > 0
  {
    base + b * (blockSize + HEADER) + HEADER
  }

  /** The block whose header lies in front of this address. */
  function BlockOf(base: nat, blockSize: nat, ptr: nat): int {
    (ptr - HEADER - base) / (blockSize + HEADER)
  }

  lemma Scale(a: nat, b: nat, stride: nat)
    requires a < b
    ensures a * stride + stride <= b * stride
  {
    assert (a + 1) * stride <= b * stride by {
      assert b * stride == (a + 1) * stride + (b - a - 1) * stride;
    }
  }

  /** The size of n things of this size. */
  function Times(n: nat, size: nat): nat { n * size }

  lemma OneMore(n: nat, size: nat)
    ensures Times(n + 1, size) == Times(n, size) + size
  {
  }

  lemma Fits(used: nat, free: nat, size: nat)
    ensures Times(used, size) <= Times(used + free, size + HEADER)
  {
    assert (used + free) * (size + HEADER) == used * size + (used * HEADER + free * (size + HEADER));
  }

  /** Data regions of different blocks do not meet, and no region meets a header. */
  lemma RegionsDisjoint(base: nat, blockSize: nat, a: nat, b: nat)
    requires a != b
    ensures || DataAddress(base, blockSize, a) + blockSize <= DataAddress(base, blockSize, b) - HEADER
            || DataAddress(base, blockSize, b) + blockSize <= DataAddress(base, blockSize, a) - HEADER
  {
    if a < b {
      Scale(a, b, blockSize + HEADER);
    } else {
      Scale(b, a, blockSize + HEADER);
    }
  }

  /** A data region is aligned, lies inside the arena, and names its block. */
  lemma RegionPlaced(base: nat, blockSize: nat, blockCount: nat, b: nat)
    requires base % ALIGNMENT == 0 && blockSize % ALIGNMENT == 0 && b < blockCount
    ensures DataAddress(base, blockSize, b) % ALIGNMENT == 0
    ensures base <= DataAddress(base, blockSize, b)
    ensures DataAddress(base, blockSize, b) + blockSize <= base + Times(blockCount, blockSize + HEADER)
    ensures BlockOf(base, blockSize, DataAddress(base, blockSize, b)) == b
  {
    var stride := blockSize + HEADER;
    Scale(b, blockCount, stride);
    Quotient(b, stride);
    MultipleAligned(b, stride);
    var offset, total := b * stride, blockCount * stride;
    assert DataAddress(base, blockSize, b) == base + offset + HEADER && Times(blockCount, stride) == total;
    hide *;
  }

  lemma MultipleAligned(b: nat, stride: nat)
    requires stride % ALIGNMENT == 0
    ensures (b * stride) % ALIGNMENT == 0
  {
    var k := stride / ALIGNMENT;
    assert b * stride == ALIGNMENT * (b * k) by {
      assert stride == ALIGNMENT * k;
      assert b * (ALIGNMENT * k) == ALIGNMENT * (b * k);
    }
  }

  lemma Quotient(b: nat, stride: nat)
    requires stride > 0
    ensures (b * stride) / stride == b
  {
    var x := b * stride;
    var q, r := x / stride, x % stride;
    assert x == q * stride + r;
    if q < b {
      Scale(q, b, stride);
    } else if b < q {
      Scale(b, q, stride);
    }
  }

  // ---- the initial lists ----

  function Range(n: nat): (s: seq<int>)
    ensures |s| == n && forall i :: 0 <= i < n ==> s[i] == i
  {
    seq(n, i => i)
  }

  function InitialBlock(i: nat, n: nat, size: nat): Block {
    Block(MAGIC, true, size, if i + 1 < n then i + 1 else NIL, if i > 0 then i - 1 else NIL)
  }

  lemma InitialPartition(bs: seq<Block>, size: nat)
    requires |bs| > 0 && forall i :: 0 <= i < |bs| ==> bs[i] == InitialBlock(i, |bs|, size)
    ensures Partition(Lists(bs, 0, NIL), Range(|bs|), [])
  {
    var f := Range(|bs|);
    assert ListOf(bs, 0, f);
    forall b | 0 <= b < |bs| ensures b in f {
      assert f[b] == b;
    }
  }

  function MaxOf(s: seq<nat>): nat
    requires s != []
  {
    if |s| == 1 then s[0] else if s[|s| - 1] > MaxOf(s[..|s| - 1]) then s[|s| - 1] else MaxOf(s[..|s| - 1])
  }

  lemma {:induction false} MaxIsBound(s: seq<nat>)
    requires s != []
    ensures forall i :: 0 <= i < |s| ==> s[i] <= MaxOf(s)
    ensures MaxOf(s) in s
  {
    if |s| <= 1 {
    } else {
      MaxIsBound(s[..|s| - 1]);
    }
  }

  lemma MaxAppend(s: seq<nat>, x: nat)
    requires s != []
    ensures MaxOf(s + [x]) == if x > MaxOf(s) then x else MaxOf(s)
  {
    assert (s + [x])[..|s|] == s;
  }

  lemma NothingUsed(size: nat)
    ensures Times(0, size) == 0 && MaxOf([0]) == 0
  {
  }

  // ---- memcpy ----

  ghost function Slice(m: seq<byte>, at: nat, size: nat): (s: seq<byte>)
    requires at + size <= |m|
    ensures |s| == size
  {
    m[at..at + size]
  }

  ghost predicate Copied(was: seq<byte>, now: seq<byte>, source: nat, target: nat, n: nat) {
    && |now| == |was| && source + n <= |was| && target + n <= |was|
    && (forall i {:trigger now[i]} :: 0 <= i < |was| && !(target <= i < target + n) ==> now[i] == was[i])
    && (forall i {:trigger now[i]} :: target <= i < target + n ==> now[i] == was[source + (i - target)])
  }

  lemma CopiedTo(was: seq<byte>, now: seq<byte>, source: nat, target: nat, n: nat, size: nat)
    requires Copied(was, now, source, target, n) && n <= size && source + size <= |was| && target + size <= |was|
    ensures Slice(now, target, size) == Slice(was, source, size)[..n] + Slice(was, target, size)[n..]
  {
    var a, b := now[target..target + size], was[source..source + size][..n] + was[target..target + size][n..];
    forall i | 0 <= i < size ensures a[i] == b[i] {
      assert a[i] == now[target + i];
      if i < n {
        assert b[i] == was[source + i] == was[source + (target + i - target)];
      } else {
        assert b[i] == was[target + i];
      }
    }
  }

  lemma CopiedElsewhere(was: seq<byte>, now: seq<byte>, source: nat, target: nat, n: nat, at: nat, size: nat)
    requires Copied(was, now, source, target, n) && at + size <= |was|
    requires at + size <= target || target + n <= at
    ensures Slice(now, at, size) == Slice(was, at, size)
  {
    var a, b := now[at..at + size], was[at..at + size];
    forall i | 0 <= i < size ensures a[i] == b[i] {
      assert a[i] == now[at + i] && b[i] == was[at + i];
    }
  }

  class Pool {
    const base: nat
    const blockSize: nat
    const blockCount: nat
    const totalSize: nat
    const mem: array<byte>       // the arena; only its data regions are used here
    const blocks: array<Block>   // the headers in front of the data regions
    var freeList: int
    var usedList: int
    var usedSize: int
    var freeSize: int
    var usedBlocks: int
    var freeBlocks: int
    var maxUsed: int
    var allocCount: int
    var freeCount: int
    var failCount: int
    ghost var f: seq<int>        // the free list
    ghost var u: seq<int>        // the used list
    ghost var sizes: seq<nat>    // every value used_size has had

    ghost function Links(): Lists
      reads this, blocks
    {
      Lists(blocks[..], freeList, usedList)
    }

    ghost predicate Layout()
      reads this
    {
      && base % ALIGNMENT == 0 && blockSize % ALIGNMENT == 0 && base > 0 && blockSize > 0
      && blocks.Length == blockCount > 0
      && mem.Length == totalSize == Times(blockCount, blockSize + HEADER)
    }

    /** The statistics agree with the lists and with the history. */
    ghost predicate Counted()
      reads this
    {
      && usedBlocks == |u| && freeBlocks == |f|
      && usedSize == Times(|u|, blockSize) && usedSize + freeSize == totalSize
      && sizes != [] && sizes[|sizes| - 1] == usedSize && maxUsed == MaxOf(sizes)
    }

    ghost predicate Valid()
      reads this, blocks
    {
      && Layout() && Counted() && Partition(Links(), f, u)
      && forall b :: 0 <= b < blocks.Length ==> blocks[b].size == blockSize
    }

    /** The pointer mempool_alloc hands out for block b. */
    ghost function Pointer(b: int): nat
      requires b >= 0
      reads this
    {
      DataAddress(base, blockSize, b)
    }

    ghost predicate Live(ptr: nat)
      reads this
    {
      exists k :: 0 <= k < |u| && 0 <= u[k] && ptr == Pointer(u[k])
    }

    /** The bytes of block b. */
    ghost function Contents(b: int): (bytes: seq<byte>)
      requires Layout() && 0 <= b < blockCount
      reads this, mem
      ensures |bytes| == blockSize
    {
      RegionPlaced(base, blockSize, blockCount, b);
      Slice(mem[..], DataAddress(base, blockSize, b) - base, blockSize)
    }

    /** The statistics of every reachable pool: nothing underflows, and max_used is
        the largest value that used_size has had. */
    lemma StatisticsHold()
      requires Valid()
      ensures 0 <= usedSize <= totalSize && 0 <= freeSize && usedSize + freeSize == totalSize
      ensures usedBlocks + freeBlocks == blockCount && usedBlocks >= 0 && usedSize == Times(usedBlocks, blockSize)
      ensures (forall s :: s in sizes ==> s <= maxUsed) && maxUsed in sizes
    {
      hide Times;
      assert |f| + |u| == blockCount;
      hide ListOf, Marked;
      Fits(|u|, |f|, blockSize);
      MaxIsBound(sizes);
    }

    constructor (base: nat, blockSize: nat, blockCount: nat)
      requires base % ALIGNMENT == 0 && base > 0 && blockCount > 0
      ensures Valid() && u == [] && f == Range(blockCount) && sizes == [0]
      ensures this.base == base && this.blockCount == blockCount
      ensures this.blockSize == AlignUp(if blockSize < 8 then 8 else blockSize)
      ensures fresh(mem) && fresh(blocks) && forall i :: 0 <= i < mem.Length ==> mem[i] == 0
      ensures allocCount == freeCount == failCount == 0
    {
      hide Times, AlignUp, ListOf, Marked, Partition, MaxOf;
      var size := AlignUp(if blockSize < 8 then 8 else blockSize);
      NothingUsed(size);
      var total := Times(blockCount, size + HEADER);
      this.base, this.blockSize, this.blockCount, this.totalSize := base, size, blockCount, total;
      mem := new byte[total](_ => 0);
      blocks := new Block[blockCount](_ => Block(0, false, 0, 0, 0));
      freeList, usedList := 0, NIL;
      usedSize, freeSize, usedBlocks, freeBlocks := 0, total, 0, blockCount;
      maxUsed, allocCount, freeCount, failCount := 0, 0, 0, 0;
      f, u, sizes := Range(blockCount), [], [0];
      new;
      InitBlocks();
    }

    /** init_blocks: every block free, linked in the order of the arena. */
    method InitBlocks()
      requires Layout()
      modifies this`freeList, this`usedList, blocks
      ensures freeList == 0 && usedList == NIL
      ensures forall b :: 0 <= b < blocks.Length ==> blocks[b] == InitialBlock(b, blockCount, blockSize)
      ensures forall b :: 0 <= b < blocks.Length ==> blocks[b].magic == 0xDEADBEEF && blocks[b].isFree
      ensures Partition(Links(), Range(blockCount), [])
    {
      for i := 0 to blockCount
        invariant forall b :: 0 <= b < i ==> blocks[b] == InitialBlock(b, blockCount, blockSize)
      {
        blocks[i] := Block(MAGIC, true, blockSize, if i < blockCount - 1 then i + 1 else NIL, if i > 0 then i - 1 else NIL);
      }
      freeList, usedList := 0, NIL;
      InitialPartition(blocks[..], blockSize);
    }

    /** Move the first free block to the front of the used list. */
    method TakeBlock()
      requires Layout() && Partition(Links(), f, u) && f != []
      modifies this`freeList, this`usedList, this`f, this`u, blocks
      ensures Partition(Links(), f, u) && f == old(f)[1..] && u == [old(f)[0]] + old(u)
      ensures forall b :: 0 <= b < blocks.Length ==> blocks[b].size == old(blocks[b].size)
    {
      hide Marked, ListOf, Push;
      TakeFirstKeeps(Links(), f, u);
      ghost var taken := TakeFirst(Links());
      HeadsInRange(Links(), f, u);
      var b := freeList;
      freeList := blocks[b].next;
      if freeList != NIL {
        blocks[freeList] := blocks[freeList].(prev := NIL);
      }
      assert blocks[..] == SetPrev(old(blocks[..]), freeList, NIL);
      ghost var popped := blocks[..];
      blocks[b] := blocks[b].(isFree := false);
      assert blocks[..] == popped[b := popped[b].(isFree := false)];
      PutInFront(usedList, b);
      usedList := b;
      f, u := f[1..], [b] + u;
      assert Links() == taken;
    }

    /** The statistics of one more used block. */
    method Charge()
      requires usedBlocks == |u| - 1 && freeBlocks == |f| + 1
      requires |u| > 0 && usedSize == Times(|u| - 1, blockSize) && usedSize + freeSize == totalSize
      requires sizes != [] && maxUsed == MaxOf(sizes)
      modifies this`usedSize, this`freeSize, this`usedBlocks, this`freeBlocks, this`allocCount, this`maxUsed, this`sizes
      ensures Counted() && allocCount == old(allocCount) + 1 && usedSize == old(usedSize) + blockSize && sizes == old(sizes) + [usedSize]
    {
      usedSize := usedSize + blockSize;
      freeSize := freeSize - blockSize;
      usedBlocks := usedBlocks + 1;
      freeBlocks := freeBlocks - 1;
      allocCount := allocCount + 1;
      OneMore(|u| - 1, blockSize);
      MaxAppend(sizes, usedSize);
      sizes := sizes + [usedSize];
      if usedSize > maxUsed {
        maxUsed := usedSize;
      }
    }

    /** mempool_alloc: NULL (0) for a bad size or an exhausted pool, else the data
        of the block that was first in the free list. */
    method Alloc(size: nat) returns (ptr: nat)
      requires Valid()
      modifies this, blocks
      ensures Valid()
      ensures if 0 < size <= blockSize && old(f) != [] then
                && ptr == Pointer(old(f)[0]) && f == old(f)[1..] && u == [old(f)[0]] + old(u)
                && allocCount == old(allocCount) + 1 && failCount == old(failCount)
                && usedSize == old(usedSize) + blockSize && sizes == old(sizes) + [usedSize]
              else
                && ptr == 0 && f == old(f) && u == old(u) && blocks[..] == old(blocks[..])
                && allocCount == old(allocCount) && failCount == old(failCount) + 1 && sizes == old(sizes)
      ensures freeCount == old(freeCount)
    {
      hide ListOf, Marked, Times, DataAddress;
      if size == 0 || size > blockSize {
        failCount := failCount + 1;
        return 0;
      }
      ptr := 0;
      var b := freeList;
      HeadTells(Links(), f, u);
      if b == NIL {
        failCount := failCount + 1;
        return 0;
      }
      if blocks[b].magic == MAGIC {
        TakeBlock();
        Charge();
        ptr := DataAddress(base, blockSize, b);
      }
    }

    /** Move a used block to the front of the free list. */
    method ReturnBlock(b: nat, ghost k: nat)
      requires Layout() && Partition(Links(), f, u) && k < |u| && b == u[k]
      modifies this`freeList, this`usedList, this`f, this`u, blocks
      ensures Partition(Links(), f, u) && f == [b] + old(f) && u == old(u)[..k] + old(u)[k + 1..]
      ensures forall c :: 0 <= c < blocks.Length ==> blocks[c].size == old(blocks[c].size)
    {
      hide Marked, ListOf, Unlink, Push;
      GiveBackKeeps(Links(), f, u, k);
      ghost var given := GiveBack(Links(), b);
      LinksInRange(Links(), f, u, k);
      TakeOut(b);
      ghost var cut := blocks[..];
      blocks[b] := blocks[b].(isFree := true);
      assert blocks[..] == cut[b := cut[b].(isFree := true)];
      PutInFront(freeList, b);
      freeList := b;
      f, u := [b] + f, u[..k] + u[k + 1..];
      assert Links() == given;
    }

    /** Take a block out of the used list. */
    method TakeOut(b: nat)
      requires b < blocks.Length
      requires NIL <= blocks[b].next < blocks.Length && NIL <= blocks[b].prev < blocks.Length
      modifies this`usedList, blocks
      ensures blocks[..] == Unlink(old(blocks[..]), b)
      ensures usedList == HeadWithout(old(blocks[..]), old(usedList), b)
    {
      var next, prev := blocks[b].next, blocks[b].prev;
      if prev != NIL {
        blocks[prev] := blocks[prev].(next := next);
      } else {
        usedList := next;
      }
      if next != NIL {
        blocks[next] := blocks[next].(prev := prev);
      }
    }

    /** Put a block in front of the list that starts at head. */
    method PutInFront(head: int, b: nat)
      requires b < blocks.Length && NIL <= head < blocks.Length
      modifies blocks
      ensures blocks[..] == Push(old(blocks[..]), head, b)
    {
      blocks[b] := blocks[b].(next := head, prev := NIL);
      if head != NIL {
        blocks[head] := blocks[head].(prev := b);
      }
    }

    /** The statistics of one used block less. */
    method Credit()
      requires usedBlocks == |u| + 1 && freeBlocks == |f| - 1
      requires usedSize == Times(|u| + 1, blockSize) && usedSize + freeSize == totalSize
      requires sizes != [] && maxUsed == MaxOf(sizes) && sizes[|sizes| - 1] == usedSize
      modifies this`usedSize, this`freeSize, this`usedBlocks, this`freeBlocks, this`freeCount, this`sizes
      ensures Counted() && freeCount == old(freeCount) + 1 && usedSize == old(usedSize) - blockSize && sizes == old(sizes) + [usedSize]
    {
      MaxIsBound(sizes);
      usedSize := usedSize - blockSize;
      freeSize := freeSize + blockSize;
      usedBlocks := usedBlocks - 1;
      freeBlocks := freeBlocks + 1;
      freeCount := freeCount + 1;
      OneMore(|u|, blockSize);
      MaxAppend(sizes, usedSize);
      sizes := sizes + [usedSize];
    }

    /** mempool_free, for NULL and for the data pointer of any block of the pool:
        freeing a block that is not in use is reported and changes nothing. */
    method Free(ptr: nat, ghost b: nat) returns (r: Status, ghost k: nat)
      requires Valid() && (ptr != 0 ==> b < blockCount && ptr == Pointer(b))
      modifies this, blocks
      ensures Valid()
      ensures r == if ptr == 0 || b in old(u) then Ok else DoubleFree
      ensures if ptr != 0 && b in old(u) then
                && k < |old(u)| && old(u)[k] == b
                && f == [b as int] + old(f) && u == old(u)[..k] + old(u)[k + 1..]
                && freeCount == old(freeCount) + 1
                && usedSize == old(usedSize) - blockSize && sizes == old(sizes) + [usedSize]
              else
                && f == old(f) && u == old(u) && blocks[..] == old(blocks[..])
                && freeCount == old(freeCount) && sizes == old(sizes)
      ensures allocCount == old(allocCount) && failCount == old(failCount)
    {
      hide ListOf, Marked, Times, DataAddress;
      r, k := Ok, 0;
      if ptr != 0 {
        RegionPlaced(base, blockSize, blockCount, b);
        var block := (ptr - HEADER - base) / (blockSize + HEADER);
        assert block == b;
        MarkTells(blocks[..], f, u, b);
        r := Corrupted;
        if blocks[block].magic == MAGIC {
          if blocks[block].isFree {
            r := DoubleFree;
          } else {
            k :| 0 <= k < |u| && u[k] == b;
            ReturnBlock(block, k);
            Credit();
            r := Ok;
          }
        }
      }
    }

    /** mempool_reset: every block free again; the largest use so far is kept. */
    method Reset()
      requires Valid()
      modifies this, blocks
      ensures Valid() && f == Range(blockCount) && u == [] && sizes == old(sizes) + [0]
      ensures maxUsed == old(maxUsed)
      ensures allocCount == old(allocCount) && freeCount == old(freeCount) && failCount == old(failCount)
    {
      hide ListOf, Marked, Partition, Times;
      InitBlocks();
      f, u := Range(blockCount), [];
      ResetStatistics();
    }

    method ResetStatistics()
      requires Layout() && u == [] && |f| == blockCount && sizes != [] && maxUsed == MaxOf(sizes)
      modifies this`usedSize, this`freeSize, this`usedBlocks, this`freeBlocks, this`sizes
      ensures Counted() && sizes == old(sizes) + [0]
    {
      assert Times(0, blockSize) == 0;
      hide Times;
      MaxAppend(sizes, 0);
      sizes := sizes + [0];
      usedSize := 0;
      freeSize := totalSize;
      usedBlocks := 0;
      freeBlocks := blockCount;
    }

    // ---- live pointers ----

    lemma LiveBlock(ptr: nat) returns (b: nat)
      requires Layout() && Partition(Links(), f, u) && Live(ptr)
      ensures b < blockCount && b in u && ptr == Pointer(b)
    {
      var k :| 0 <= k < |u| && 0 <= u[k] && ptr == Pointer(u[k]);
      b := u[k];
    }

    /** Live pointers are aligned and not NULL, their data lies inside the arena, and
        different ones own disjoint data. */
    lemma LiveSeparated(p: nat, q: nat)
      requires Valid() && Live(p) && Live(q)
      ensures p % ALIGNMENT == 0 && 0 < base <= p && p + blockSize <= base + totalSize
      ensures p != q ==> p + blockSize <= q || q + blockSize <= p
    {
      var a := LiveBlock(p);
      var b := LiveBlock(q);
      hide Partition;
      RegionPlaced(base, blockSize, blockCount, a);
      if p != q {
        RegionsDisjoint(base, blockSize, a, b);
      }
    }

    /** memcpy from one block to another reaches no third block. */
    method CopyBlock(from: nat, to: nat, n: nat)
      requires Layout() && from < blockCount && to < blockCount && from != to && n <= blockSize
      modifies mem
      ensures Contents(to) == old(Contents(from))[..n] + old(Contents(to))[n..]
      ensures forall c :: 0 <= c < blockCount && c != to ==> Contents(c) == old(Contents(c))
    {
      hide DataAddress, BlockOf, Slice, Times;
      RegionPlaced(base, blockSize, blockCount, from);
      RegionPlaced(base, blockSize, blockCount, to);
      RegionsDisjoint(base, blockSize, from, to);
      var source, target := DataAddress(base, blockSize, from) - base, DataAddress(base, blockSize, to) - base;
      ghost var was := mem[..];
      forall i | 0 <= i < n {
        mem[target + i] := mem[source + i];
      }
      assert Copied(was, mem[..], source, target, n);
      hide Copied;
      CopiedTo(was, mem[..], source, target, n, blockSize);
      forall c | 0 <= c < blockCount && c != to ensures Contents(c) == old(Contents(c)) {
        RegionPlaced(base, blockSize, blockCount, c);
        RegionsDisjoint(base, blockSize, c, to);
        CopiedElsewhere(was, mem[..], source, target, n, DataAddress(base, blockSize, c) - base, blockSize);
      }
    }

    /** The second half of mempool_realloc: copy to the block just allocated, and
        free the old one. */
    method MoveTo(ptr: nat, target: nat, size: nat, ghost b: nat) returns (ghost k: nat)
      requires Valid() && size <= blockSize && |u| > 1 && 0 <= u[0] < blockCount && target == Pointer(u[0])
      requires b < blockCount && b in u && b != u[0] && ptr == Pointer(b)
      modifies this, blocks, mem
      ensures Valid() && 0 < k < |old(u)| && old(u)[k] == b
      ensures f == [b as int] + old(f) && u == old(u)[..k] + old(u)[k + 1..]
      ensures sizes == old(sizes) + [usedSize] && usedSize == old(usedSize) - blockSize
      ensures allocCount == old(allocCount) && freeCount == old(freeCount) + 1 && failCount == old(failCount)
      ensures Contents(old(u)[0]) == old(Contents(b))[..size] + old(Contents(u[0]))[size..]
      ensures forall c :: 0 <= c < blockCount && c != old(u)[0] ==> Contents(c) == old(Contents(c))
    {
      hide ListOf, Marked, Times;
      RegionPlaced(base, blockSize, blockCount, b);
      RegionPlaced(base, blockSize, blockCount, u[0]);
      var fromBlock, toBlock := (ptr - HEADER - base) / (blockSize + HEADER), (target - HEADER - base) / (blockSize + HEADER);
      var oldSize := blocks[fromBlock].size;
      CopyBlock(fromBlock, toBlock, if size < oldSize then size else oldSize);
      var _, at := Free(ptr, b);
      k := at;
    }

    /** mempool_realloc of NULL or of a live pointer. Moving keeps the first `size`
        bytes; a NULL answer for a nonzero size leaves the old block as it was. */
    method Realloc(ptr: nat, size: nat, ghost b: nat) returns (r: nat, ghost k: nat)
      requires Valid() && (ptr != 0 ==> b < blockCount && b in u && ptr == Pointer(b))
      modifies this, blocks, mem
      ensures Valid()
      ensures r != 0 <==> 0 < size <= blockSize && old(f) != []
      ensures r != 0 ==> 0 <= old(f)[0] < blockCount && r == Pointer(old(f)[0])
      ensures ptr != 0 && (r != 0 || size == 0) ==> k < |old(u)| && old(u)[k] == b
      ensures if r != 0 && ptr != 0 then
                && f == [b as int] + old(f)[1..] && u == [old(f)[0]] + old(u)[..k] + old(u)[k + 1..]
                && Contents(old(f)[0]) == old(Contents(b))[..size] + old(Contents(f[0]))[size..]
              else if r != 0 then
                f == old(f)[1..] && u == [old(f)[0]] + old(u)
              else if ptr != 0 && size == 0 then
                f == [b as int] + old(f) && u == old(u)[..k] + old(u)[k + 1..]
              else
                f == old(f) && u == old(u) && blocks[..] == old(blocks[..])
      ensures if r != 0 && ptr != 0 then sizes == old(sizes) + [usedSize + blockSize, usedSize]
              else if r != 0 || (ptr != 0 && size == 0) then sizes == old(sizes) + [usedSize]
              else sizes == old(sizes)
      ensures forall c :: 0 <= c < blockCount && (r == 0 || ptr == 0 || c != old(f)[0]) ==> Contents(c) == old(Contents(c))
      ensures allocCount == old(allocCount) + if r != 0 then 1 else 0
      ensures freeCount == old(freeCount) + if ptr != 0 && (r != 0 || size == 0) then 1 else 0
      ensures failCount == old(failCount) + if r == 0 && (ptr == 0 || 0 < size <= blockSize) then 1 else 0
    {
      hide ListOf, Marked, Partition, Counted, Times, DataAddress;
      r, k := 0, 0;
      HeadTells(Links(), f, u);
      if ptr == 0 {
        r := Alloc(size);
      } else if size == 0 {
        var _, at := Free(ptr, b);
        k := at;
      } else if size <= blockSize {
        if f != [] {
          FirstIsNotUsed(Links(), f, u, b);
        }
        r := Alloc(size);
        if r != 0 {
          assert u[1..] == old(u);
          var at := MoveTo(ptr, r, size, b);
          k := at - 1;
        }
      }
    }

    /** One list of mempool_check: every header on it has the magic number and the
        expected flag. */
    method Walk(head: int, isFree: bool, ghost s: seq<int>) returns (ok: bool, count: nat)
      requires ListOf(blocks[..], head, s)
      ensures ok <==> Uniform(blocks[..], s, isFree)
      ensures ok ==> count == |s|
    {
      ghost var bs := blocks[..];
      var block := head;
      count := 0;
      while block != NIL
        invariant count <= |s| && block == At(s, count)
        invariant Uniform(bs, s[..count], isFree)
        decreases |s| - count
      {
        assert bs[s[count]].next == At(s, count + 1);
        if blocks[block].magic != MAGIC || blocks[block].isFree != isFree {
          return false, count;
        }
        assert s[..count + 1] == s[..count] + [s[count]];
        count := count + 1;
        block := blocks[block].next;
      }
      assert s[..count] == s;
      ok := true;
    }

    /** mempool_check ends on every pair of properly linked lists, whatever the
        headers and counters say, and says OK exactly when both lists have sound
        headers and the length the counters give. */
    method Check(ghost f: seq<int>, ghost u: seq<int>) returns (r: Status)
      requires ListOf(blocks[..], freeList, f) && ListOf(blocks[..], usedList, u)
      ensures r == if Sound(f, u) then Ok else Corrupted
    {
      hide ListOf, Uniform;
      var freeOk, freeFound := Walk(freeList, true, f);
      if !freeOk {
        return Corrupted;
      }
      var usedOk, usedFound := Walk(usedList, false, u);
      if !usedOk || freeFound != freeBlocks || usedFound != usedBlocks {
        return Corrupted;
      }
      return Ok;
    }

    ghost predicate Sound(f: seq<int>, u: seq<int>)
      reads this, blocks
    {
      && Uniform(blocks[..], f, true) && Uniform(blocks[..], u, false)
      && freeBlocks == |f| && usedBlocks == |u|
    }

    /** When the counters add up to the number of blocks, OK means that the two lists
        hold every block of the pool exactly once; so after any run of the operations
        the answer is OK. */
    lemma SoundIsPartition(f: seq<int>, u: seq<int>)
      requires ListOf(blocks[..], freeList, f) && ListOf(blocks[..], usedList, u)
      requires freeBlocks + usedBlocks == blocks.Length
      ensures Sound(f, u) <==> Partition(Links(), f, u) && freeBlocks == |f| && usedBlocks == |u|
    {
      UniformIsMarked(blocks[..], freeList, usedList, f, u);
      hide ListOf, Marked, Uniform;
    }

    /** After any run of the operations mempool_check says OK. */
    lemma ValidIsSound()
      requires Valid()
      ensures Sound(f, u)
    {
      assert |f| + |u| == blocks.Length;
      hide ListOf, Marked, Uniform;
      SoundIsPartition(f, u);
    }
  }

  /** mempool_create: no pool without blocks. */
  method Create(base: nat, blockSize: nat, blockCount: nat) returns (pool: Pool?)
    requires base % ALIGNMENT == 0 && base > 0
    ensures pool == null <==> blockCount == 0
    ensures pool != null ==> fresh(pool) && pool.Valid() && pool.u == [] && pool.f == Range(blockCount)
    ensures pool != null ==>
              var wanted := if blockSize < 8 then 8 else blockSize;
              && pool.blockCount == blockCount && pool.blockSize % 8 == 0 && wanted <= pool.blockSize < wanted + 8
              && pool.totalSize == Times(blockCount, pool.blockSize + 32)
  {
    if blockCount == 0 {
      return null;
    }
    pool := new Pool(base, blockSize, blockCount);
  }
}
