/** The fixed-block allocator (delegate-mq/extras/allocator/Allocator.cpp): a free list threaded through the free
    blocks themselves, and counters of 32 bits.  Memory is one cell per address; the pointer at the start
    of a block is one cell. */
module Allocators {
  import opened Common

  const POINTER_SIZE: nat := 8
  const WRAP: nat := 0x1_0000_0000

  type Address = int

  datatype Cell =
    | Link(next: Address)      // Block::pNext
    | Owner(owner: Allocator)  // BlockHeader::allocator
    | Byte(value: bv8)

  /** The process heap: what lies at or above `top` has never been handed out.  A request never fails. */
  class Heap {
    var mem: map<Address, Cell>
    var top: Address

    constructor (top: Address)
      requires top > 0
      ensures this.top == top && mem == map[]
    {
      this.top, mem := top, map[];
    }

    method New(size: nat) returns (a: Address)
      modifies `top
      ensures a == old(top) && top == a + size
    {
      a := top;
      top := top + size;
    }
  }

  // ---------------------------------------------------------------------------------------------
  // The free list
  // ---------------------------------------------------------------------------------------------

  /** From `head` on, the links in memory spell out `free` and end in NULL. */
  predicate Chain(mem: map<Address, Cell>, head: Address, free: seq<Address>)
    decreases |free|
  {
    if free == [] then head == 0
    else
      && head == free[0] && head != 0
      && head in mem && mem[head].Link?
      && Chain(mem, mem[head].next, free[1..])
  }

  /** The list survives any change of memory outside its blocks' links. */
  lemma {:induction false} ChainFrame(mem: map<Address, Cell>, mem': map<Address, Cell>, head: Address,
                                      free: seq<Address>)
    requires Chain(mem, head, free)
    requires forall a :: a in free && a in mem ==> a in mem' && mem'[a] == mem[a]
    ensures Chain(mem', head, free)
    decreases |free|
  {
    if free != [] {
      ChainFrame(mem, mem', mem[head].next, free[1..]);
    }
  }

  /** A list with the same head in the same memory is the same list: the links alone determine it. */
  lemma {:induction false} ChainUnique(mem: map<Address, Cell>, head: Address, a: seq<Address>, b: seq<Address>)
    requires Chain(mem, head, a) && Chain(mem, head, b)
    ensures a == b
    decreases |a|
  {
    if a != [] && b != [] {
      ChainUnique(mem, mem[head].next, a[1..], b[1..]);
      assert a == [a[0]] + a[1..] && b == [b[0]] + b[1..];
    }
  }

  function ToSet(s: seq<Address>): set<Address> {
    set a | a in s
  }

  predicate NoRepeats(s: seq<Address>) {
    forall i, j :: 0 <= i < j < |s| ==> s[i] != s[j]
  }

  ghost predicate FreeList(mem: map<Address, Cell>, head: Address, free: seq<Address>, inUse: set<Address>) {
    Chain(mem, head, free) && NoRepeats(free) && ToSet(free) !! inUse
  }

  /** The head of a list, and the list after its first block has been taken off. */
  lemma ListShape(mem: map<Address, Cell>, head: Address, free: seq<Address>, inUse: set<Address>)
    requires FreeList(mem, head, free, inUse)
    ensures head == 0 <==> free == []
    ensures free != [] ==>
      && head == free[0] && head in mem && mem[head].Link? && head !in inUse
      && FreeList(mem, mem[head].next, free[1..], inUse + {head})
      && ToSet(free[1..]) + (inUse + {head}) == ToSet(free) + inUse
  {
    if free != [] {
      assert free == [head] + free[1..];
    }
  }

  /** A block in use goes to the front of the list; its first cell becomes the link. */
  lemma ListPushed(mem: map<Address, Cell>, head: Address, free: seq<Address>, inUse: set<Address>, p: Address)
    requires FreeList(mem, head, free, inUse) && p in inUse && p != 0
    ensures FreeList(mem[p := Link(head)], p, [p] + free, inUse - {p})
    ensures ToSet([p] + free) + (inUse - {p}) == ToSet(free) + inUse
    ensures |[p] + free| + |inUse - {p}| == |free| + |inUse|
  {
    hide Chain;
    assert p !in ToSet(free);
    ChainPush(mem, head, free, p);
  }

  lemma ChainPush(mem: map<Address, Cell>, head: Address, free: seq<Address>, p: Address)
    requires Chain(mem, head, free) && p !in free && p != 0
    ensures Chain(mem[p := Link(head)], p, [p] + free)
  {
    ChainFrame(mem, mem[p := Link(head)], head, free);
    assert ([p] + free)[1..] == free;
  }

  /** Blocks of `size` bytes at these addresses do not overlap. */
  predicate Apart(blocks: set<Address>, size: nat) {
    forall a, b :: a in blocks && b in blocks && a < b ==> a + size <= b
  }

  lemma ApartGrows(blocks: set<Address>, size: nat, a: Address)
    requires Apart(blocks, size) && forall b :: b in blocks ==> b + size <= a
    ensures Apart(blocks + {a}, size)
  {
  }

  function Bump(n: uint32): uint32 {
    (n + 1) % WRAP
  }

  function Sink(n: uint32): uint32 {
    if n == 0 then WRAP - 1 else n - 1
  }

  /** The 32-bit counters agree with the number of blocks in use, whatever has wrapped around. */
  predicate Agree(blocks: nat, blocksInUse: uint32, allocations: uint32, deallocations: uint32) {
    blocksInUse == blocks % WRAP && (allocations - deallocations) % WRAP == blocksInUse
  }

  lemma AgreeUp(blocks: nat, blocksInUse: uint32, allocations: uint32, deallocations: uint32)
    requires Agree(blocks, blocksInUse, allocations, deallocations)
    ensures Agree(blocks + 1, Bump(blocksInUse), Bump(allocations), deallocations)
  {
  }

  lemma AgreeDown(blocks: nat, blocksInUse: uint32, allocations: uint32, deallocations: uint32)
    requires Agree(blocks + 1, blocksInUse, allocations, deallocations)
    ensures Agree(blocks, Sink(blocksInUse), allocations, Bump(deallocations))
  {
  }

  lemma BumpCounts(n: nat)
    ensures Bump(n % WRAP) == (n + 1) % WRAP
  {
  }

  function BlockSize(size: nat): (r: nat)
    ensures r >= size && r >= POINTER_SIZE && (r == size || r == POINTER_SIZE)
  {
    if size < POINTER_SIZE then POINTER_SIZE else size
  }

  /** A pool whose memory is sized by the object (`AllocatorPool`) holds all its blocks exactly when the object is
      at least as large as a pointer. */
  lemma StaticPoolFitsIff(size: nat, objects: nat)
    ensures BlockSize(size) * objects <= size * objects <==> size >= POINTER_SIZE || objects == 0
  {
    if size < POINTER_SIZE && objects > 0 {
      assert POINTER_SIZE * objects - size * objects == (POINTER_SIZE - size) * objects;
      assert (POINTER_SIZE - size) * objects >= 1 * objects;
    }
  }

  predicate OnBoundary(a: Address, pool: Address, size: nat) {
    size > 0 && a >= pool && (a - pool) % size == 0
  }

  lemma NextBoundary(n: nat, pool: Address, size: nat)
    requires size > 0
    ensures OnBoundary(pool + n * size, pool, size) && (n + 1) * size == n * size + size
  {
    assert (n * size) % size == 0 by { Multiple(n, size); }
  }

  lemma Multiple(n: nat, size: nat)
    requires size > 0
    ensures (n * size) % size == 0
  {
    var x := n * size;
    var q, r := x / size, x % size;
    assert x == q * size + r;
    if n < q {
      Monotone(n + 1, q, size);
    } else if q < n {
      Monotone(q + 1, n, size);
    }
  }

  lemma Monotone(n: nat, m: nat, size: nat)
    requires n <= m
    ensures n * size <= m * size
  {
    assert m * size == n * size + (m - n) * size;
  }

  /** Where blocks that were never handed out begin. */
  function Frontier(size: nat, maxObjects: nat, pool: Address, poolIndex: nat, top: Address): Address {
    if maxObjects > 0 then pool + poolIndex * size else top
  }

  /** The issued blocks lie apart, below the frontier, and on block boundaries of the pool if there is one. */
  ghost predicate Layout(size: nat, maxObjects: nat, pool: Address, poolIndex: nat, top: Address,
                         issued: set<Address>)
  {
    var frontier := Frontier(size, maxObjects, pool, poolIndex, top);
    && size > 0 && 0 < frontier <= top
    && (forall a :: a in issued ==> 0 < a && a + size <= frontier)
    && Apart(issued, size)
    && (if maxObjects == 0 then poolIndex == 0
        else
          && 0 < pool && poolIndex <= maxObjects && pool + maxObjects * size <= top
          && (forall a :: a in issued ==> OnBoundary(a, pool, size)))
  }

  /** The next block of the pool is new and fits. */
  lemma LayoutPool(size: nat, maxObjects: nat, pool: Address, poolIndex: nat, top: Address, issued: set<Address>)
    requires Layout(size, maxObjects, pool, poolIndex, top, issued) && poolIndex < maxObjects
    ensures var p := pool + poolIndex * size;
      p > 0 && p !in issued && Layout(size, maxObjects, pool, poolIndex + 1, top, issued + {p})
  {
    hide OnBoundary;
    var p := pool + poolIndex * size;
    NextBoundary(poolIndex, pool, size);
    Monotone(poolIndex + 1, maxObjects, size);
    ApartGrows(issued, size, p);
  }

  /** So is a block at or beyond the top of the heap. */
  lemma LayoutHeap(size: nat, pool: Address, poolIndex: nat, top: Address, issued: set<Address>, p: Address,
                   top': Address)
    requires Layout(size, 0, pool, poolIndex, top, issued) && top <= top'
    requires 0 < p && p + size <= top' && forall a :: a in issued ==> a + size <= p
    ensures p !in issued && Layout(size, 0, pool, poolIndex, top', issued + {p})
  {
    ApartGrows(issued, size, p);
  }

  /** Others may take memory meanwhile. */
  lemma LayoutTop(size: nat, maxObjects: nat, pool: Address, poolIndex: nat, top: Address, issued: set<Address>,
                  top': Address)
    requires Layout(size, maxObjects, pool, poolIndex, top, issued) && top <= top'
    ensures Layout(size, maxObjects, pool, poolIndex, top', issued)
  {
  }

  /** No two issued blocks overlap, and all lie below the top of the heap. */
  lemma LayoutApart(size: nat, maxObjects: nat, pool: Address, poolIndex: nat, top: Address, issued: set<Address>)
    requires Layout(size, maxObjects, pool, poolIndex, top, issued)
    ensures forall a :: a in issued ==> 0 < a && a + size <= top
    ensures forall a, b :: a in issued && b in issued && a != b ==> a + size <= b || b + size <= a
  {
  }

  /** In a pool, every issued block passes the range and alignment checks. */
  lemma LayoutGuards(size: nat, maxObjects: nat, pool: Address, poolIndex: nat, top: Address, issued: set<Address>,
                     a: Address)
    requires Layout(size, maxObjects, pool, poolIndex, top, issued) && a in issued
    ensures size > 0 && (maxObjects > 0 ==> pool <= a < pool + maxObjects * size && (a - pool) % size == 0)
  {
    hide Apart;
    if maxObjects > 0 {
      Monotone(poolIndex, maxObjects, size);
      assert OnBoundary(a, pool, size);
    }
  }

  lemma IssuedGrows(free: seq<Address>, inUse: set<Address>, p: Address)
    requires p !in ToSet(free) + inUse
    ensures ToSet(free) + (inUse + {p}) == ToSet(free) + inUse + {p}
    ensures |inUse + {p}| == |inUse| + 1
    ensures ToSet(free) !! inUse ==> ToSet(free) !! inUse + {p}
  {
  }

  class Allocator {
    const heap: Heap
    const blockSize: nat
    const objectSize: nat
    const maxObjects: uint32
    const pool: Address
    var head: Address
    var poolIndex: uint32
    var blockCnt: uint32
    var blocksInUse: uint32
    var allocations: uint32
    var deallocations: uint32

    /** The free list, and the blocks handed out. */
    ghost var free: seq<Address>
    ghost var inUse: set<Address>

    /** `memory` is a caller's pool, or 0.  Nothing checks that such a pool is large enough. */
    constructor (heap: Heap, size: nat, objects: uint32, memory: Address)
      requires heap.top > 0 && memory >= 0
      modifies heap`top
      ensures Valid() <==> (objects > 0 && memory != 0 ==> memory + BlockSize(size) * objects <= heap.top)
      ensures this.heap == heap && objectSize == size && maxObjects == objects && blockSize == BlockSize(size)
      ensures heap.top == old(heap.top) + if objects > 0 && memory == 0 then BlockSize(size) * objects else 0
      ensures free == [] && inUse == {}
    {
      this.heap := heap;
      blockSize, objectSize, maxObjects := BlockSize(size), size, objects;
      head, poolIndex, blockCnt := 0, 0, 0;
      blocksInUse, allocations, deallocations := 0, 0, 0;
      free, inUse := [], {};
      if objects == 0 {
        pool := 0;
      } else if memory != 0 {
        pool := memory;
      } else {
        pool := heap.top;
        heap.top := heap.top + BlockSize(size) * objects;
      }
    }

    ghost function Issued(): set<Address>
      reads `free, `inUse
    {
      ToSet(free) + inUse
    }

    /** The free list is threaded through the free blocks, and no block is both free and in use. */
    ghost predicate Linked()
      reads `head, `free, `inUse, heap`mem
    {
      FreeList(heap.mem, head, free, inUse)
    }

    ghost predicate Placed(issued: set<Address>)
      reads `poolIndex, heap`top
    {
      blockSize == BlockSize(objectSize) && Layout(blockSize, maxObjects, pool, poolIndex, heap.top, issued)
    }

    /** As many blocks exist as were taken from the pool or from the heap. */
    ghost predicate Counted()
      reads `poolIndex, `blockCnt, `free, `inUse
    {
      if maxObjects > 0 then |free| + |inUse| == poolIndex else blockCnt == (|free| + |inUse|) % WRAP
    }

    ghost predicate Sound()
      reads `head, `poolIndex, `blockCnt, `free, `inUse, heap
    {
      Linked() && Placed(Issued()) && Counted()
    }

    ghost predicate Valid()
      reads this, heap
    {
      Sound() && Agree(|inUse|, blocksInUse, allocations, deallocations)
    }

    /** `Valid` for a given memory and top of the heap. */
    ghost predicate ValidWith(mem: map<Address, Cell>, top: Address)
      reads this
    {
      && FreeList(mem, head, free, inUse) && blockSize == BlockSize(objectSize)
      && Layout(blockSize, maxObjects, pool, poolIndex, top, Issued())
      && Counted() && Agree(|inUse|, blocksInUse, allocations, deallocations)
    }

    /** The allocator is not disturbed when the heap grows at the top or memory changes outside its free
        blocks' links. */
    lemma Undisturbed(mem: map<Address, Cell>, top: Address)
      requires Valid() && heap.top <= top
      requires forall a :: a in free && a in heap.mem ==> a in mem && mem[a] == heap.mem[a]
      ensures ValidWith(mem, top)
    {
      hide Layout, Chain, NoRepeats, Agree, ToSet, BlockSize;
      LayoutTop(blockSize, maxObjects, pool, poolIndex, heap.top, Issued(), top);
      ChainFrame(heap.mem, mem, head, free);
    }

    /** Taking the first free block, or NULL. */
    method Pop() returns (p: Address)
      requires Sound()
      modifies `head, `free, `inUse
      ensures Sound() && Issued() == old(Issued())
      ensures if old(free) == [] then p == 0 && free == [] && inUse == old(inUse) && head == old(head)
              else && p == old(free)[0] && p != 0 && p !in old(inUse)
                   && free == old(free)[1..] && inUse == old(inUse) + {p}
    {
      hide Placed, Chain, NoRepeats, ToSet;
      ListShape(heap.mem, head, free, inUse);
      p := 0;
      if head != 0 {
        p := head;
        head := heap.mem[head].next;
        free, inUse := free[1..], inUse + {free[0]};
      }
    }

    /** Putting a block in front of the free list. */
    method Push(p: Address)
      requires Sound() && p in inUse
      modifies `head, `free, `inUse, heap`mem
      ensures Sound() && Issued() == old(Issued())
      ensures heap.mem == old(heap.mem)[p := Link(old(head))]
      ensures free == [p] + old(free) && inUse == old(inUse) - {p}
    {
      hide Chain, NoRepeats, Layout;
      assert p in Issued();
      TopOf();
      ListPushed(heap.mem, head, free, inUse, p);
      heap.mem := heap.mem[p := Link(head)];
      head := p;
      free, inUse := [p] + free, inUse - {p};
    }

    /** Freeing a block; the return value says whether the safeguard checks would pass. */
    method Deallocate(p: Address) returns (safe: bool)
      requires Valid() && p in inUse
      modifies this, heap`mem
      ensures Valid() && safe
      ensures free == [p] + old(free) && inUse == old(inUse) - {p} && Issued() == old(Issued())
      ensures heap.mem == old(heap.mem)[p := Link(old(head))]
      ensures deallocations == Bump(old(deallocations)) && allocations == old(allocations)
    {
      hide Linked, Placed, Counted, Agree;
      Guarded(p);
      safe := maxObjects == 0
        || (pool <= p < pool + maxObjects * blockSize && (p - pool) % blockSize == 0);
      assert |inUse - {p}| == |inUse| - 1;
      AgreeDown(|inUse| - 1, blocksInUse, allocations, deallocations);
      Push(p);
      blocksInUse := Sink(blocksInUse);
      deallocations := Bump(deallocations);
    }

    /** The next block of the pool. */
    method FromPool() returns (p: Address)
      requires Sound() && maxObjects > 0 && poolIndex < maxObjects
      modifies `poolIndex, `inUse
      ensures Sound() && p != 0 && p !in old(Issued()) && inUse == old(inUse) + {p}
    {
      hide Layout, Chain, NoRepeats, BlockSize, ToSet;
      LayoutPool(blockSize, maxObjects, pool, poolIndex, heap.top, Issued());
      p := pool + poolIndex * blockSize;
      IssuedGrows(free, inUse, p);
      poolIndex := poolIndex + 1;
      inUse := inUse + {p};
    }

    /** A fresh block of the heap: `new char[m_blockSize]`, counted. */
    method FromHeap() returns (p: Address)
      requires Sound() && maxObjects == 0
      modifies `blockCnt, `inUse, heap`top
      ensures Sound() && p != 0 && p !in old(Issued()) && inUse == old(inUse) + {p}
      ensures p == old(heap.top) && heap.top == p + blockSize
    {
      hide Layout, Chain, NoRepeats, BlockSize, ToSet, Bump;
      BumpCounts(|free| + |inUse|);
      TopOf();
      LayoutHeap(blockSize, pool, poolIndex, heap.top, Issued(), heap.top, heap.top + blockSize);
      blockCnt := Bump(blockCnt);
      p := heap.New(blockSize);
      IssuedGrows(free, inUse, p);
      inUse := inUse + {p};
    }

    lemma TopOf()
      requires Placed(Issued())
      ensures heap.top > 0 && forall a :: a in Issued() ==> 0 < a && a + blockSize <= heap.top
    {
    }

    /** A block: the most recently freed one if there is one, else a new one.  It fails exactly when a pool is
        used up, and then changes nothing.  The block is not in use already and overlaps none that is. */
    method Allocate(size: nat) returns (r: Option<Address>)
      requires Valid() && size <= objectSize
      modifies this, heap`top
      ensures Valid()
      ensures r.None? <==> maxObjects > 0 && old(free) == [] && old(poolIndex) == maxObjects
      ensures r.None? ==> unchanged(this) && unchanged(heap)
      ensures r.Some? ==> r.value != 0 && r.value !in old(inUse) && inUse == old(inUse) + {r.value}
      ensures r.Some? ==> forall a :: a in old(inUse) ==> a + blockSize <= r.value || r.value + blockSize <= a
      ensures if old(free) != [] then free == old(free)[1..] && r == Some(old(free)[0]) && Issued() == old(Issued())
              else free == [] && (r.Some? ==> r.value !in old(Issued()))
      ensures heap.top == old(heap.top) + if old(free) == [] && maxObjects == 0 then blockSize else 0
      ensures r.Some? ==> allocations == Bump(old(allocations)) && deallocations == old(deallocations)
    {
      hide Linked, Placed, Counted, Agree, Bump, ToSet;
      ghost var blocks := |inUse|;
      AgreeUp(blocks, blocksInUse, allocations, deallocations);
      var p := Pop();
      if p == 0 {
        p := NewBlock();
        if p == 0 {
          return None;
        }
      }
      blocksInUse := Bump(blocksInUse);
      allocations := Bump(allocations);
      assert |inUse| == blocks + 1;
      LiveApart(p);
      return Some(p);
    }

    /** A block that was never handed out, or NULL when the pool is used up. */
    method NewBlock() returns (p: Address)
      requires Sound()
      modifies `poolIndex, `blockCnt, `inUse, heap`top
      ensures Sound()
      ensures p == 0 <==> maxObjects > 0 && old(poolIndex) == maxObjects
      ensures if p == 0 then unchanged(this) && unchanged(heap) else p !in old(Issued()) && inUse == old(inUse) + {p}
      ensures heap.top == old(heap.top) + if maxObjects == 0 then blockSize else 0
    {
      hide Linked, Placed, Counted, ToSet;
      if maxObjects == 0 {
        p := FromHeap();
      } else if poolIndex < maxObjects {
        p := FromPool();
      } else {
        Exhausted();
        p := 0;
      }
    }

    lemma Exhausted()
      requires Placed(Issued()) && maxObjects > 0 && poolIndex >= maxObjects
      ensures poolIndex == maxObjects
    {
    }

    /** Blocks in use do not overlap. */
    lemma LiveApart(p: Address)
      requires Placed(Issued()) && p in inUse
      ensures forall a :: a in inUse && a != p ==> a + blockSize <= p || p + blockSize <= a
    {
      LayoutApart(blockSize, maxObjects, pool, poolIndex, heap.top, Issued());
      assert forall a :: a in inUse ==> a in Issued();
    }

    /** The statistics of an allocation that bypassed `Allocate`: of a block that was just popped, or of one
        that was just taken from the heap. */
    method AccountAlloc(newBlock: bool, ghost p: Address)
      requires newBlock ==> maxObjects == 0 && Valid() && forall a :: a in Issued() ==> a + blockSize <= p
      requires newBlock ==> 0 < p && p + blockSize <= heap.top
      requires !newBlock ==> Sound() && p in inUse && Agree(|inUse| - 1, blocksInUse, allocations, deallocations)
      modifies `blockCnt, `blocksInUse, `allocations, `inUse
      ensures Valid() && inUse == if newBlock then old(inUse) + {p} else old(inUse)
      ensures allocations == Bump(old(allocations))
    {
      hide Layout, Chain, NoRepeats, Agree, Bump, BlockSize, ToSet;
      if newBlock {
        BumpCounts(|free| + |inUse|);
        AgreeUp(|inUse|, blocksInUse, allocations, deallocations);
        LayoutHeap(blockSize, pool, poolIndex, heap.top, Issued(), p, heap.top);
        IssuedGrows(free, inUse, p);
        blockCnt := Bump(blockCnt);
        inUse := inUse + {p};
      } else {
        AgreeUp(|inUse| - 1, blocksInUse, allocations, deallocations);
      }
      blocksInUse := Bump(blocksInUse);
      allocations := Bump(allocations);
    }

    /** Whatever a client writes into a block it holds, the free list is untouched. */
    lemma ClientMayWrite(p: Address, mem: map<Address, Cell>)
      requires Sound() && p in inUse
      requires forall a :: a in heap.mem && !(p <= a < p + blockSize) ==> a in mem && mem[a] == heap.mem[a]
      ensures FreeList(mem, head, free, inUse)
    {
      hide Layout, Chain, NoRepeats;
      LayoutApart(blockSize, maxObjects, pool, poolIndex, heap.top, Issued());
      assert p in Issued();
      forall a | a in free && a in heap.mem
        ensures a in mem && mem[a] == heap.mem[a]
      {
        assert a in ToSet(free) && a in Issued() && a !in inUse;
      }
      ChainFrame(heap.mem, mem, head, free);
    }

    /** What the safeguards check of a block holds of every block in use. */
    lemma Guarded(p: Address)
      requires Placed(Issued()) && p in inUse
      ensures blockSize > 0
      ensures maxObjects > 0 ==> pool <= p < pool + maxObjects * blockSize && (p - pool) % blockSize == 0
    {
      assert p in Issued();
      LayoutGuards(blockSize, maxObjects, pool, poolIndex, heap.top, Issued(), p);
    }
  }
}
