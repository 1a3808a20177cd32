/** The general allocator on top of the fixed-block ones (delegate-mq/extras/allocator/xallocator.cpp): one block
    allocator per power of two, and in front of every block handed out a header that names it.  The header
    occupies the same cell as the free-list link of a free block. */
module XAllocators {
  import opened Common
  import opened Allocators
  import SizeClass

  const HEADER: nat := 16
  const MAX_ALLOCATORS: nat := 15
  const WIDTH: nat := 64

  function Read(mem: map<Address, Cell>, a: Address): Cell {
    if a in mem then mem[a] else Byte(0)
  }

  /** The `n` cells from `a` on. */
  function Bytes(mem: map<Address, Cell>, a: Address, n: nat): (r: seq<Cell>)
    ensures |r| == n
  {
    seq(n, i requires 0 <= i < n => Read(mem, a + i))
  }

  /** A block of `n` cells holds what it held. */
  predicate SameBlock(mem: map<Address, Cell>, mem': map<Address, Cell>, p: Address, n: nat) {
    forall a :: p <= a < p + n ==> Read(mem', a) == Read(mem, a)
  }

  /** How many bytes a reallocation copies. */
  function Fewer(size: nat, usable: int): nat {
    if usable < 0 then 0 else if usable < size then usable else size
  }

  lemma BytesKept(mem: map<Address, Cell>, mem': map<Address, Cell>, p: Address, a: Address, n: nat)
    requires forall b :: b != p ==> Read(mem', b) == Read(mem, b)
    requires !(a <= p < a + n)
    ensures Bytes(mem', a, n) == Bytes(mem, a, n)
  {
  }

  lemma SameBytes(mem: map<Address, Cell>, mem': map<Address, Cell>, dst: Address, src: Address, n: nat)
    requires forall a :: dst <= a < dst + n ==> Read(mem', a) == Read(mem, a - dst + src)
    ensures Bytes(mem', dst, n) == Bytes(mem, src, n)
  {
  }

  lemma SameCells(mem: map<Address, Cell>, mem': map<Address, Cell>, dst: Address, n: nat)
    requires forall a :: !(dst <= a < dst + n) ==> Read(mem', a) == Read(mem, a)
    requires forall a {:trigger a in mem'} :: !(dst <= a < dst + n) ==> (a in mem' <==> a in mem)
    ensures forall a :: a in mem && !(dst <= a < dst + n) ==> a in mem' && mem'[a] == mem[a]
  {
    forall a | a in mem && !(dst <= a < dst + n)
      ensures a in mem' && mem'[a] == mem[a]
    {
      assert Read(mem', a) == Read(mem, a);
      assert a in mem';
    }
  }

  /** The block size computed for a request, in the machine's arithmetic. */
  function ClassOf(size: nat, footer: nat): nat {
    SizeClass.RoundUp(SizeClass.Wrap(size + HEADER + footer, WIDTH), WIDTH)
  }

  /** The request, its header and its footer fit in the block exactly when their sum does not exceed 2^63. */
  lemma ClassFitsIff(size: nat, footer: nat)
    requires size < SizeClass.Pow2(WIDTH) && footer <= 4
    ensures ClassOf(size, footer) >= size + HEADER + footer <==> size + HEADER + footer <= SizeClass.Pow2(WIDTH - 1)
  {
    hide SizeClass.RoundUp, SizeClass.Wrap, SizeClass.Pow2;
    var k, half, full := size + HEADER + footer, SizeClass.Pow2(WIDTH - 1), SizeClass.Pow2(WIDTH);
    Doubles();
    SizeClass.WrapIs(k, WIDTH);
    SizeClass.RoundUpIs(SizeClass.Wrap(k, WIDTH), WIDTH);
    RoundUpBelow(SizeClass.Wrap(k, WIDTH));
  }

  /** Beyond that the size computed is too small: for half of all requests it is even zero. */
  lemma HugeRequestGetsNothing(size: nat, footer: nat)
    requires SizeClass.Pow2(WIDTH - 1) < size + HEADER + footer < SizeClass.Pow2(WIDTH)
    ensures ClassOf(size, footer) == 0
  {
    hide SizeClass.RoundUp, SizeClass.Wrap, SizeClass.Pow2;
    SizeClass.WrapIs(size + HEADER + footer, WIDTH);
    SizeClass.RoundUpIs(size + HEADER + footer, WIDTH);
  }

  lemma Doubles()
    ensures SizeClass.Pow2(WIDTH) == 2 * SizeClass.Pow2(WIDTH - 1) && SizeClass.Pow2(WIDTH - 1) > 1000
  {
    SizeClass.PowGrows(10, WIDTH - 1);
    assert SizeClass.Pow2(10) == 1024;
  }

  lemma RoundUpBelow(k: nat)
    requires k < SizeClass.Pow2(WIDTH)
    ensures SizeClass.RoundUp(k, WIDTH) <= SizeClass.Pow2(WIDTH - 1)
  {
    hide SizeClass.RoundUp;
    SizeClass.RoundUpIs(k, WIDTH);
    if 1 <= k <= SizeClass.Pow2(WIDTH - 1) {
      SizeClass.PowGrows(SizeClass.Bits(k - 1), WIDTH - 1);
    }
  }

  /** No block of one allocator overlaps a block of the other. */
  ghost predicate Clear(x: Allocator, y: Allocator)
    reads x`free, x`inUse, y`free, y`inUse
  {
    Separate(x.Issued(), x.blockSize, y.Issued(), y.blockSize)
  }

  ghost predicate Separate(s: set<Address>, m: nat, t: set<Address>, n: nat) {
    forall a, b :: a in s && b in t ==> a + m <= b || b + n <= a
  }

  lemma NotBoth(s: set<Address>, m: nat, t: set<Address>, n: nat, a: Address)
    requires Separate(s, m, t, n) && m > 0 && n > 0 && a in s
    ensures a !in t
  {
  }

  lemma SeparateGrows(s: set<Address>, m: nat, t: set<Address>, n: nat, p: Address)
    requires Separate(s, m, t, n) && Separate(t, n, s, m) && forall b :: b in t ==> b + n <= p
    ensures Separate(s + {p}, m, t, n) && Separate(t, n, s + {p}, m)
  {
  }

  /** The blocks of an allocator end below the top of the heap. */
  lemma BelowTop(x: Allocator)
    requires x.Valid()
    ensures forall a :: a in x.Issued() ==> 0 < a && a + x.blockSize <= x.heap.top
  {
    LayoutApart(x.blockSize, x.maxObjects, x.pool, x.poolIndex, x.heap.top, x.Issued());
  }

  lemma Nothing(x: Allocator)
    requires x.Issued() == {}
    ensures x.inUse == {}
    ensures forall y {:trigger Clear(x, y)} :: Clear(x, y)
    ensures forall y {:trigger Clear(y, x)} :: Clear(y, x)
  {
    assert x.inUse <= x.Issued();
  }

  /** There is no allocator of this block size, and no room for one. */
  predicate Exhausted(allocators: seq<Allocator>, blockSize: nat) {
    |allocators| == MAX_ALLOCATORS && forall y :: y in allocators ==> y.blockSize != blockSize
  }

  class XAllocator {
    const heap: Heap
    const footer: nat
    var allocators: seq<Allocator>

    constructor (heap: Heap, footer: nat)
      requires heap.top > 0 && footer <= 4
      ensures Valid() && allocators == [] && this.heap == heap && this.footer == footer
    {
      this.heap, this.footer := heap, footer;
      allocators := [];
    }

    ghost predicate Ours(x: Allocator)
      reads x, heap
    {
      x.heap == heap && x.maxObjects == 0 && x.blockSize >= HEADER + footer && x.Valid()
    }

    /** Every block in use, but those in `except`, carries the name of its allocator; blocks never overlap; there is
        one allocator for each block size. */
    ghost predicate Coherent(except: set<Address>)
      reads this, heap, allocators
    {
      && footer <= 4 && heap.top > 0 && |allocators| <= MAX_ALLOCATORS
      && (forall x {:trigger x in allocators} :: x in allocators ==> Ours(x))
      && (forall i, j :: 0 <= i < j < |allocators| ==> allocators[i].blockSize != allocators[j].blockSize)
      && (forall x, y {:trigger x in allocators, y in allocators} ::
            x in allocators && y in allocators && x != y ==> Clear(x, y))
      && (forall x, a {:trigger x in allocators, a in x.inUse} ::
            x in allocators && a in x.inUse && a !in except ==> Owns(x, a))
    }

    ghost predicate Valid()
      reads this, heap, allocators
    {
      Coherent({})
    }

    predicate Owns(x: Allocator, a: Address)
      reads heap`mem
    {
      a in heap.mem && heap.mem[a] == Owner(x)
    }

    method FindAllocator(size: nat) returns (found: Allocator?)
      ensures found != null ==> found in allocators && found.blockSize == size
      ensures found == null ==> forall x :: x in allocators ==> x.blockSize != size
    {
      for i := 0 to |allocators|
        invariant forall x :: x in allocators[..i] ==> x.blockSize != size
      {
        if allocators[i].blockSize == size {
          return allocators[i];
        }
        assert allocators[..i + 1] == allocators[..i] + [allocators[i]];
      }
      assert allocators[..|allocators|] == allocators;
      return null;
    }

    method InsertAllocator(x: Allocator) returns (ok: bool)
      requires Valid() && Ours(x) && x.Issued() == {} && forall y :: y in allocators ==> y.blockSize != x.blockSize
      modifies `allocators
      ensures Valid() && ok == (|old(allocators)| < MAX_ALLOCATORS)
      ensures allocators == if ok then old(allocators) + [x] else old(allocators)
    {
      hide Ours, Clear, Owns;
      ok := |allocators| < MAX_ALLOCATORS;
      if ok {
        Nothing(x);
        allocators := allocators + [x];
      }
    }

    method BlockSizeFor(size: nat) returns (blockSize: nat)
      requires footer <= 4 && size + HEADER + footer <= SizeClass.Pow2(WIDTH - 1)
      ensures blockSize == ClassOf(size, footer) >= size + HEADER + footer
    {
      hide SizeClass.Pow2, SizeClass.Wrap, SizeClass.RoundUp;
      Doubles();
      ClassFitsIff(size, footer);
      SizeClass.WrapIs(size + HEADER + footer, WIDTH);
      blockSize := SizeClass.NextHigher(SizeClass.Wrap(size + HEADER + footer, WIDTH), WIDTH);
    }

    /** The allocator for a request, made on demand.  The result is null exactly where the original asserts:
        no allocator has the block size needed, and the table of allocators is full. */
    method GetAllocator(size: nat) returns (x: Allocator?)
      requires Valid() && size + HEADER + footer <= SizeClass.Pow2(WIDTH - 1)
      modifies `allocators, heap`top
      ensures Valid() && old(allocators) <= allocators && heap.top == old(heap.top)
      ensures x != null ==> x in allocators && x.blockSize == ClassOf(size, footer) >= size + HEADER + footer
      ensures x != null && x !in old(allocators) ==> fresh(x) && x.Issued() == {} && allocators == old(allocators) + [x]
      ensures x == null || x in old(allocators) ==> allocators == old(allocators)
      ensures x == null <==> Exhausted(old(allocators), ClassOf(size, footer))
      ensures x != null && x !in old(allocators) ==>
        x.free == [] && forall y :: y in old(allocators) ==> y.blockSize != ClassOf(size, footer)
    {
      hide Ours, Clear, Owns, SizeClass.Pow2, SizeClass.Wrap, SizeClass.RoundUp, ClassOf;
      var blockSize := BlockSizeFor(size);
      x := FindAllocator(blockSize);
      if x == null {
        var made := new Allocator(heap, blockSize, 0, 0);
        Fresh(made, blockSize);
        assert made !in allocators;
        var existing := FindAllocator(blockSize);
        if existing == null {
          var ok := InsertAllocator(made);
          if !ok {
            return null;
          }
          existing := made;
        }
        x := existing;
      }
    }

    lemma Fresh(x: Allocator, size: nat)
      requires x.Valid() && x.heap == heap && x.maxObjects == 0 && x.blockSize == BlockSize(size)
      requires size >= HEADER + footer && x.free == [] && x.inUse == {}
      ensures Ours(x) && x.Issued() == {} && x.blockSize == size
    {
    }

    lemma Known(x: Allocator)
      requires Ours(x)
      ensures x.heap == heap && x.maxObjects == 0 && x.blockSize >= HEADER + footer && x.Valid()
    {
    }

    lemma Kept(x: Allocator)
      requires x.heap == heap && x.maxObjects == 0 && x.blockSize >= HEADER + footer && x.Valid()
      ensures Ours(x)
    {
    }

    /** Taking a recycled block, if there is one. */
    method TakeFree(x: Allocator) returns (p: Address)
      requires Valid() && x in allocators
      modifies x
      ensures (p == 0 <==> old(x.free) == []) && (p != 0 ==> p == old(x.free)[0] && x.free == old(x.free)[1..])
      ensures p == 0 ==> Valid() && x.free == [] && x.inUse == old(x.inUse)
      ensures p != 0 ==> Coherent({p}) && x.inUse == old(x.inUse) + {p}
      ensures p != 0 ==> p in old(x.Issued()) && p !in old(x.inUse)
    {
      hide Ours, Separate, Owns, Layout, FreeList, BlockSize, ToSet, Agree;
      Known(x);
      ghost var issued := x.Issued();
      assert forall a :: a !in x.inUse ==> |x.inUse + {a}| - 1 == |x.inUse|;
      p := x.Pop();
      if p != 0 {
        x.AccountAlloc(false, p);
        assert x.Issued() == issued;
      }
      Kept(x);
    }

    lemma KeptWith(x: Allocator)
      requires x.heap == heap && x.maxObjects == 0 && x.blockSize >= HEADER + footer && x.ValidWith(heap.mem, heap.top)
      ensures Ours(x)
    {
    }

    /** `new char[size]`: memory above all blocks. */
    method Grow(size: nat) returns (p: Address)
      requires Valid()
      modifies heap`top
      ensures Valid() && p == old(heap.top) > 0 && heap.top == p + size
      ensures forall y :: y in allocators ==> forall a :: a in y.Issued() ==> a + y.blockSize <= p
    {
      hide Ours, Separate, Owns, Layout, Chain, NoRepeats, BlockSize, ToSet, Agree, FreeList;
      forall y | y in allocators
        ensures y.heap == heap && y.maxObjects == 0 && y.blockSize >= HEADER + footer
        ensures y.ValidWith(heap.mem, heap.top + size)
        ensures forall a :: a in y.Issued() ==> a + y.blockSize <= heap.top
      {
        Known(y);
        BelowTop(y);
        y.Undisturbed(heap.mem, heap.top + size);
      }
      p := heap.New(size);
      forall y | y in allocators
        ensures Ours(y)
      {
        KeptWith(y);
      }
    }

    /** Taking a block of the heap's top. */
    method TakeNew(x: Allocator) returns (p: Address)
      requires Valid() && x in allocators
      modifies x, heap`top
      ensures Coherent({p}) && x.inUse == old(x.inUse) + {p} && p == old(heap.top) > 0
      ensures x.free == old(x.free) && heap.top == old(heap.top) + x.blockSize
    {
      hide Ours, Separate, Owns, Layout, Chain, NoRepeats, BlockSize, ToSet, Agree, FreeList;
      p := Grow(x.blockSize);
      Known(x);
      ghost var issued := x.Issued();
      forall y | y in allocators && y != x
        ensures Separate(issued + {p}, x.blockSize, y.Issued(), y.blockSize)
        ensures Separate(y.Issued(), y.blockSize, issued + {p}, x.blockSize)
      {
        assert Clear(x, y) && Clear(y, x);
        SeparateGrows(issued, x.blockSize, y.Issued(), y.blockSize, p);
      }
      x.AccountAlloc(true, p);
      Kept(x);
      assert x.Issued() == issued + {p};
    }

    /** No other block in play starts inside a block in use. */
    lemma Inside(x: Allocator, p: Address, y: Allocator, a: Address, except: set<Address>)
      requires Coherent(except) && x in allocators && y in allocators && p in x.inUse
      requires a in y.Issued() && (x != y || a != p)
      ensures !(p <= a < p + x.blockSize)
    {
      hide Owns, FreeList, Agree;
      Known(x);
      Known(y);
      assert p in x.Issued();
      if x == y {
        LayoutApart(x.blockSize, x.maxObjects, x.pool, x.poolIndex, heap.top, x.Issued());
      } else {
        assert Clear(x, y);
      }
    }

    /** Whatever is written inside one block in use, every allocator stays valid and every other header
        stays in place. */
    lemma Contained(x: Allocator, p: Address, mem: map<Address, Cell>, except: set<Address>)
      requires Coherent(except) && x in allocators && p in x.inUse
      requires forall a :: a in heap.mem && !(p <= a < p + x.blockSize) ==> a in mem && mem[a] == heap.mem[a]
      ensures forall y :: y in allocators ==> y.ValidWith(mem, heap.top)
      ensures forall y, a {:trigger y in allocators, a in y.inUse} ::
        y in allocators && a in y.inUse && a !in except && (y != x || a != p) ==> a in mem && mem[a] == Owner(y)
    {
      hide Separate, FreeList, Layout, Agree, BlockSize, ToSet;
      forall y | y in allocators
        ensures y.ValidWith(mem, heap.top)
      {
        Known(y);
        forall a | a in y.free && a in heap.mem
          ensures a in mem && mem[a] == heap.mem[a]
        {
          FreeIssued(y, a);
          assert y != x || a != p by { FreeNotUsed(y, a); }
          Inside(x, p, y, a, except);
        }
        y.Undisturbed(mem, heap.top);
      }
      forall y, a | y in allocators && a in y.inUse && a !in except && (y != x || a != p)
        ensures a in mem && mem[a] == Owner(y)
      {
        assert Owns(y, a);
        Inside(x, p, y, a, except);
      }
    }

    lemma FreeIssued(y: Allocator, a: Address)
      requires a in y.free
      ensures a in y.Issued()
    {
    }

    lemma FreeNotUsed(y: Allocator, a: Address)
      requires y.Valid() && a in y.free
      ensures a !in y.inUse
    {
      assert a in ToSet(y.free);
    }

    /** A block of `x` that nobody uses: a recycled one if there is one. */
    method Take(x: Allocator) returns (p: Address)
      requires Valid() && x in allocators
      modifies x, heap`top
      ensures Coherent({p}) && x.inUse == old(x.inUse) + {p} && p > 0
      ensures forall y :: y in allocators ==> p !in old(y.inUse)
      ensures if old(x.free) != [] then p == old(x.free)[0] && x.free == old(x.free)[1..] && heap.top == old(heap.top)
              else p == old(heap.top) && x.free == [] && heap.top == old(heap.top) + x.blockSize
    {
      hide Separate, Owns, Layout, Chain, NoRepeats, BlockSize, ToSet, Agree, FreeList, Ours;
      forall y | y in allocators
        ensures forall a :: a in y.Issued() ==> 0 < a && a + y.blockSize <= heap.top
        ensures y.inUse <= y.Issued() && y.blockSize > 0
        ensures y != x ==> y.Issued() !! x.Issued()
        ensures heap.top > 0
      {
        Known(y);
        Known(x);
        BelowTop(y);
        if y != x {
          assert Clear(x, y);
          Foreign(x, y);
        }
      }
      p := TakeFree(x);
      if p == 0 {
        p := TakeNew(x);
      }
    }

    lemma Foreign(x: Allocator, y: Allocator)
      requires Clear(x, y) && x.blockSize > 0 && y.blockSize > 0
      ensures y.Issued() !! x.Issued()
    {
      forall a | a in x.Issued()
        ensures a !in y.Issued()
      {
        NotBoth(x.Issued(), x.blockSize, y.Issued(), y.blockSize, a);
      }
    }

    /** The header: it takes the cell that was the block's link. */
    method SetBlockAllocator(p: Address, x: Allocator) returns (u: Address)
      requires Coherent({p}) && x in allocators && p in x.inUse
      modifies heap`mem
      ensures Valid() && u == p + HEADER && heap.mem == old(heap.mem)[p := Owner(x)]
    {
      hide Separate, FreeList, Layout, Agree, BlockSize, ToSet;
      Known(x);
      Contained(x, p, heap.mem[p := Owner(x)], {p});
      forall y | y in allocators && y != x
        ensures p !in y.inUse
      {
        if p in y.inUse {
          assert p in y.Issued();
          Inside(x, p, y, p, {p});
        }
      }
      heap.mem := heap.mem[p := Owner(x)];
      forall y | y in allocators
        ensures Ours(y)
      {
        KeptWith(y);
      }
      u := p + HEADER;
    }

    /** The allocator named by the header of a block in use is the one that issued it. */
    method GetBlockAllocator(u: Address, ghost y: Allocator) returns (x: Allocator)
      requires Valid() && y in allocators && u - HEADER in y.inUse
      ensures x == y
    {
      assert Owns(y, u - HEADER);
      x := heap.mem[u - HEADER].owner;
    }

    /** `u` is what `Xmalloc` returned for a block of `x` that is in use. */
    ghost predicate Holds(x: Allocator, u: Address)
      reads this, x
    {
      x in allocators && u - HEADER in x.inUse
    }

    function Usable(x: Allocator): int {
      x.blockSize - HEADER - footer
    }

    /** Allocation: a block that was not in use, with at least `size` bytes behind its header.  The result is 0
        exactly where the original asserts: a new block size is needed and the table is full. */
    method Xmalloc(size: nat) returns (u: Address, ghost x: Allocator?)
      requires Valid() && size + HEADER + footer <= SizeClass.Pow2(WIDTH - 1)
      modifies `allocators, allocators, heap
      ensures Valid() && old(allocators) <= allocators && (u == 0 <==> x == null)
      ensures forall z :: z in allocators ==> z in old(allocators) || fresh(z)
      ensures u == 0 <==> Exhausted(old(allocators), ClassOf(size, footer))
      ensures u == 0 ==> heap.mem == old(heap.mem) && allocators == old(allocators) && heap.top == old(heap.top)
      ensures forall y :: y in old(allocators) && y != x ==> y.free == old(y.free)
      ensures u != 0 ==> x in allocators && x.blockSize == ClassOf(size, footer)
      ensures u != 0 && x !in old(allocators) ==> forall y :: y in old(allocators) ==> y.blockSize != x.blockSize
      ensures u != 0 && x in old(allocators) && old(x.free) != [] ==>
        u - HEADER == old(x.free)[0] && x.free == old(x.free)[1..] && heap.top == old(heap.top)
      ensures u != 0 && (x !in old(allocators) || old(x.free) == []) ==>
        u - HEADER == old(heap.top) && x.free == [] && heap.top == old(heap.top) + x.blockSize
      ensures u != 0 && x !in old(allocators) ==> x.inUse == {u - HEADER} && allocators == old(allocators) + [x]
      ensures u != 0 && x in old(allocators) ==> allocators == old(allocators)
      ensures u == 0 ==> forall y :: y in old(allocators) ==> y.inUse == old(y.inUse)
      ensures u != 0 ==> Holds(x, u) && Usable(x) >= size && heap.mem == old(heap.mem)[u - HEADER := Owner(x)]
      ensures u != 0 ==> forall y :: y in old(allocators) ==> u - HEADER !in old(y.inUse)
      ensures u != 0 ==> forall y :: y in old(allocators) ==>
        y.inUse == if y == x then old(y.inUse) + {u - HEADER} else old(y.inUse)
      ensures forall z, p {:trigger p in old(z.inUse)} :: z in old(allocators) && p in old(z.inUse) ==>
        SameBlock(old(heap.mem), heap.mem, p, z.blockSize)
    {
      hide Coherent, Ours, Owns, SizeClass.Pow2, SizeClass.RoundUp, ClassOf;
      x := null;
      var a := GetAllocator(size);
      if a == null {
        return 0, null;
      }
      var p := Take(a);
      u := SetBlockAllocator(p, a);
      x := a;
      forall z, q | z in old(allocators) && q in old(z.inUse)
        ensures SameBlock(old(heap.mem), heap.mem, q, z.blockSize)
      {
        UsedApart(x, p, z, q);
      }
    }

    /** Giving a block back to the allocator that issued it, whose link takes the header's cell. */
    method Release(x: Allocator, p: Address)
      requires Valid() && x in allocators && p in x.inUse
      modifies x, heap`mem
      ensures Valid() && x.free == [p] + old(x.free) && x.inUse == old(x.inUse) - {p}
      ensures heap.mem == old(heap.mem)[p := Link(old(x.head))]
    {
      hide Separate, FreeList, Layout, Agree, BlockSize, ToSet;
      Known(x);
      Contained(x, p, heap.mem[p := Link(x.head)], {});
      var safe := x.Deallocate(p);
      forall z | z in allocators && z != x
        ensures Ours(z)
      {
        KeptWith(z);
      }
    }

    /** Freeing: the block goes back to the allocator that its header names. */
    method Xfree(u: Address, ghost y: Allocator?)
      requires Valid() && (u != 0 ==> y != null && Holds(y, u))
      modifies if u == 0 then {} else {y}, heap`mem
      ensures Valid() && allocators == old(allocators) && heap.top == old(heap.top)
      ensures u == 0 ==> heap.mem == old(heap.mem) && forall z :: z in allocators ==> z.inUse == old(z.inUse)
      ensures u != 0 ==> y.free == [u - HEADER] + old(y.free) && y.inUse == old(y.inUse) - {u - HEADER}
      ensures u != 0 ==> forall z :: z in allocators && z != y ==> z.inUse == old(z.inUse) && z.free == old(z.free)
      ensures u != 0 ==> heap.mem == old(heap.mem)[u - HEADER := Link(old(y.head))]
      ensures forall z, p {:trigger p in old(z.inUse)} :: z in allocators && p in old(z.inUse) && p != u - HEADER ==>
        p in z.inUse && SameBlock(old(heap.mem), heap.mem, p, z.blockSize)
    {
      hide Coherent, Ours;
      if u == 0 {
        return;
      }
      var x := GetBlockAllocator(u, y);
      NotIn(x, u - HEADER);
      Release(x, u - HEADER);
    }

    /** The start of a block in use lies in no other block in use. */
    lemma NotIn(x: Allocator, p: Address)
      requires Valid() && x in allocators && p in x.inUse
      ensures forall z, q {:trigger q in z.inUse} :: z in allocators && q in z.inUse && q != p ==>
        !(q <= p < q + z.blockSize)
    {
      hide Coherent, Ours, Owns;
      forall z, q | z in allocators && q in z.inUse && q != p
        ensures !(q <= p < q + z.blockSize)
      {
        Roomy(x);
        UsedApart(x, p, z, q);
      }
    }

    lemma Roomy(x: Allocator)
      requires Valid() && x in allocators
      ensures x.blockSize >= HEADER
    {
      hide Owns;
      Known(x);
    }

    /** Two blocks in use do not overlap. */
    lemma UsedApart(x: Allocator, p: Address, y: Allocator, q: Address)
      requires Valid() && x in allocators && y in allocators && p in x.inUse && q in y.inUse && p != q
      ensures p + x.blockSize <= q || q + y.blockSize <= p
    {
      hide Owns, FreeList, Agree;
      Known(x);
      Known(y);
      assert p in x.Issued() && q in y.Issued();
      if x == y {
        LayoutApart(x.blockSize, x.maxObjects, x.pool, x.poolIndex, heap.top, x.Issued());
      } else {
        assert Clear(x, y);
      }
    }

    /** A client may write whatever it likes behind the header of a block it holds. */
    method ClientWrites(ghost x: Allocator, u: Address, mem: map<Address, Cell>)
      requires Valid() && Holds(x, u)
      requires forall a :: a in heap.mem && !(u <= a < u + Usable(x)) ==> a in mem && mem[a] == heap.mem[a]
      modifies heap`mem
      ensures Valid() && heap.mem == mem
    {
      hide Separate, FreeList, Layout, Agree, BlockSize, ToSet;
      Contained(x, u - HEADER, mem, {});
      assert Owns(x, u - HEADER);
      heap.mem := mem;
      forall y | y in allocators
        ensures Ours(y)
      {
        KeptWith(y);
      }
    }

    /** memcpy of `n` bytes into a block that a client holds. */
    method Copy(dst: Address, src: Address, n: nat, ghost x: Allocator)
      requires Valid() && Holds(x, dst) && n <= Usable(x) && (dst + n <= src || src + n <= dst)
      modifies heap`mem
      ensures Valid() && Bytes(heap.mem, dst, n) == Bytes(old(heap.mem), src, n)
      ensures forall a :: !(dst <= a < dst + n) ==> Read(heap.mem, a) == Read(old(heap.mem), a)
    {
      hide Coherent;
      var mem := heap.mem;
      for i := 0 to n
        invariant forall a :: dst <= a < dst + i ==> Read(mem, a) == Read(heap.mem, a - dst + src)
        invariant forall a :: !(dst <= a < dst + i) ==> Read(mem, a) == Read(heap.mem, a)
        invariant forall a {:trigger a in mem} :: !(dst <= a < dst + i) ==> (a in mem <==> a in heap.mem)
      {
        var next := mem[dst + i := Read(mem, src + i)];
        assert Read(mem, src + i) == Read(heap.mem, src + i);
        assert forall a :: a != dst + i ==> Read(next, a) == Read(mem, a);
        mem := next;
      }
      SameCells(heap.mem, mem, dst, n);
      SameBytes(heap.mem, mem, dst, src, n);
      ClientWrites(x, dst, mem);
    }

    /** Reallocation.  As many bytes as both blocks can hold and the caller asked for are kept; the old block
        is given back, unless the new one could not be had, and then nothing has changed. */
    method Xrealloc(oldMem: Address, size: nat, ghost y: Allocator?) returns (u: Address, ghost x: Allocator?)
      requires Valid() && size + HEADER + footer <= SizeClass.Pow2(WIDTH - 1)
      requires oldMem != 0 ==> y != null && Holds(y, oldMem)
      modifies `allocators, allocators, heap
      ensures Valid() && old(allocators) <= allocators
      ensures u != 0 ==> x != null && Holds(x, u) && Usable(x) >= size && x.blockSize == ClassOf(size, footer)
      ensures oldMem != 0 && size == 0 ==> u == 0 && heap.top == old(heap.top)
      ensures u != 0 ==> forall z :: z in old(allocators) ==> u - HEADER !in old(z.inUse)
      ensures u != 0 && oldMem != 0 ==>
        Bytes(heap.mem, u, Fewer(size, Usable(y))) == Bytes(old(heap.mem), oldMem, Fewer(size, Usable(y)))
      ensures oldMem != 0 && (u != 0 || size == 0) ==> oldMem - HEADER in y.free && oldMem - HEADER !in y.inUse
      ensures forall z, p {:trigger p in old(z.inUse)} ::
        z in old(allocators) && p in old(z.inUse) && p != oldMem - HEADER ==>
        p in z.inUse && SameBlock(old(heap.mem), heap.mem, p, z.blockSize)
      ensures u == 0 && (oldMem == 0 || size > 0) ==> Exhausted(old(allocators), ClassOf(size, footer))
      ensures u == 0 && (oldMem == 0 || size > 0) ==>
        heap.mem == old(heap.mem) && forall z :: z in old(allocators) ==> z.inUse == old(z.inUse)
    {
      hide Coherent, Ours, Owns, SizeClass.Pow2, SizeClass.RoundUp, ClassOf;
      u, x := 0, null;
      if oldMem == 0 {
        u, x := Xmalloc(size);
        return;
      }
      if size == 0 {
        Xfree(oldMem, y);
        return;
      }
      u, x := Xmalloc(size);
      if u != 0 {
        var oldAllocator := GetBlockAllocator(oldMem, y);
        var n := Fewer(size, Usable(oldAllocator));
        UsedApart(x, u - HEADER, y, oldMem - HEADER);
        forall z, p | z in allocators && p in z.inUse && p != u - HEADER
          ensures p + z.blockSize <= u || u + n <= p
        {
          UsedApart(x, u - HEADER, z, p);
        }
        ghost var before, middle := old(heap.mem), heap.mem;
        BytesKept(before, middle, u - HEADER, oldMem, n);
        Copy(u, oldMem, n, x);
        BytesKept(heap.mem, heap.mem[oldMem - HEADER := Link(y.head)], oldMem - HEADER, u, n);
        Xfree(oldMem, y);
      }
    }
  }

  // ---------------------------------------------------------------------------------------------
  // Recycling
  // ---------------------------------------------------------------------------------------------

  /** What was freed last is what a request of the same class gets next. */
  method FreedComesBack(l: XAllocator, u: Address, size: nat, ghost y: Allocator) returns (v: Address)
    requires l.Valid() && l.Holds(y, u) && u != 0 && y.blockSize == ClassOf(size, l.footer)
    requires size + HEADER + l.footer <= SizeClass.Pow2(WIDTH - 1)
    modifies l`allocators, l.allocators, l.heap
    ensures v == u && l.heap.top == old(l.heap.top)
  {
    hide XAllocator.Valid, ClassOf, SizeClass.Pow2;
    l.Xfree(u, y);
    OneOfEach(l, y);
    ghost var x;
    v, x := l.Xmalloc(size);
  }

  /** There is one allocator for each block size. */
  lemma OneOfEach(l: XAllocator, y: Allocator)
    requires l.Valid() && y in l.allocators
    ensures forall x :: x in l.allocators && x.blockSize == y.blockSize ==> x == y
  {
  }

  /** A client of one size class: it allocates, or frees the k-th of the blocks that it holds. */
  datatype Request = Allocate | Free(k: nat)

  /** How many blocks a client holds after its requests. */
  function Held(requests: seq<Request>): nat {
    if requests == [] then 0
    else
      var n, r := Held(requests[..|requests| - 1]), requests[|requests| - 1];
      if r.Allocate? then n + 1 else if r.k < n then n - 1 else n
  }

  /** The largest number of blocks that it held at one time. */
  function Peak(requests: seq<Request>): nat {
    if requests == [] then 0
    else
      var before, now := Peak(requests[..|requests| - 1]), Held(requests);
      if now > before then now else before
  }

  lemma {:induction false} PeakIs(requests: seq<Request>)
    ensures forall i :: 0 <= i <= |requests| ==> Held(requests[..i]) <= Peak(requests)
    ensures exists i :: 0 <= i <= |requests| && Held(requests[..i]) == Peak(requests)
  {
    assert requests[..|requests|] == requests;
    if requests != [] {
      var front := requests[..|requests| - 1];
      PeakIs(front);
      assert forall i :: 0 <= i <= |front| ==> front[..i] == requests[..i];
    }
  }

  /** The blocks of a client, as the allocator of its class knows them. */
  ghost predicate Serving(l: XAllocator, x: Allocator, held: seq<Address>, peak: nat, top: Address)
    reads l, l.heap, l.allocators, x
  {
    && l.Valid() && x in l.allocators
    && (forall i :: 0 <= i < |held| ==> held[i] != 0 && held[i] - HEADER in x.inUse)
    && (forall i, j :: 0 <= i < j < |held| ==> held[i] != held[j])
    && |x.inUse| == |held| && |x.free| + |held| == peak && l.heap.top == top + peak * x.blockSize
  }

  function Larger(a: nat, b: nat): nat {
    if a > b then a else b
  }

  lemma OneMore(top: Address, peak: nat, size: nat)
    ensures top + peak * size + size == top + (peak + 1) * size
  {
  }

  /** A further request of the class. */
  method Serve(l: XAllocator, size: nat, r: Request, held: seq<Address>, ghost x: Allocator, ghost peak: nat,
               ghost top: Address) returns (held': seq<Address>)
    requires Serving(l, x, held, peak, top) && x.blockSize == ClassOf(size, l.footer)
    requires size + HEADER + l.footer <= SizeClass.Pow2(WIDTH - 1)
    modifies l`allocators, l.allocators, l.heap
    ensures |held'| == if r.Allocate? then |held| + 1 else if r.k < |held| then |held| - 1 else |held|
    ensures Serving(l, x, held', Larger(peak, |held'|), top) && l.allocators == old(l.allocators)
  {
    hide XAllocator.Valid, ClassOf, SizeClass.Pow2;
    OneOfEach(l, x);
    match r
    case Allocate =>
      ghost var z;
      ghost var used := x.inUse;
      var u;
      u, z := l.Xmalloc(size);
      assert z == x;
      assert |used + {u - HEADER}| == |used| + 1;
      OneMore(top, peak, x.blockSize);
      held' := held + [u];
    case Free(k) =>
      held' := held;
      if k < |held| {
        ghost var used := x.inUse;
        l.Xfree(held[k], x);
        assert |used - {held[k] - HEADER}| == |used| - 1;
        held' := held[..k] + held[k + 1..];
        Without(held, k);
      }
  }

  lemma Without(held: seq<Address>, k: nat)
    requires k < |held| && forall i, j :: 0 <= i < j < |held| ==> held[i] != held[j]
    ensures var r := held[..k] + held[k + 1..];
      && |r| == |held| - 1
      && (forall i :: 0 <= i < |r| ==> r[i] == held[if i < k then i else i + 1] && r[i] != held[k])
      && (forall i, j :: 0 <= i < j < |r| ==> r[i] != r[j])
  {
  }

  /** The first request of a class for which there is no allocator yet. */
  method ServeFirst(l: XAllocator, size: nat) returns (u: Address, ghost x: Allocator)
    requires l.Valid() && |l.allocators| < MAX_ALLOCATORS
    requires forall y :: y in l.allocators ==> y.blockSize != ClassOf(size, l.footer)
    requires size + HEADER + l.footer <= SizeClass.Pow2(WIDTH - 1)
    modifies l`allocators, l.allocators, l.heap
    ensures Serving(l, x, [u], 1, old(l.heap.top)) && x.blockSize == ClassOf(size, l.footer)
    ensures l.allocators == old(l.allocators) + [x] && fresh(x)
  {
    hide XAllocator.Valid, ClassOf, SizeClass.Pow2;
    ghost var z;
    u, z := l.Xmalloc(size);
    x := z;
    assert |{u - HEADER}| == 1;
  }

  /** Memory taken from the heap for a class is its block size times the largest number of blocks that were held at
      one time, whatever the order of allocating and freeing. */
  method Serves(l: XAllocator, size: nat, requests: seq<Request>) returns (held: seq<Address>)
    requires l.Valid() && |l.allocators| < MAX_ALLOCATORS
    requires forall y :: y in l.allocators ==> y.blockSize != ClassOf(size, l.footer)
    requires size + HEADER + l.footer <= SizeClass.Pow2(WIDTH - 1)
    modifies l`allocators, l.allocators, l.heap
    ensures l.Valid() && |held| == Held(requests)
    ensures l.heap.top == old(l.heap.top) + Peak(requests) * ClassOf(size, l.footer)
  {
    hide XAllocator.Valid, ClassOf, SizeClass.Pow2, Serving;
    held := [];
    var served := false;
    ghost var x: Allocator?, top := null, l.heap.top;
    for i := 0 to |requests|
      invariant |held| == Held(requests[..i])
      invariant x != null ==> fresh(x)
      invariant l.allocators == old(l.allocators) + if x == null then [] else [x]
      invariant served <==> x != null
      invariant if x == null then
                  && l.Valid() && l.allocators == old(l.allocators) && l.heap.top == top && Peak(requests[..i]) == 0
                  && held == [] && forall y :: y in l.allocators ==> y.blockSize != ClassOf(size, l.footer)
                else Serving(l, x, held, Peak(requests[..i]), top) && x.blockSize == ClassOf(size, l.footer)
    {
      assert requests[..i + 1][..i] == requests[..i];
      if served {
        held := Serve(l, size, requests[i], held, x, Peak(requests[..i]), top);
      } else if requests[i].Allocate? {
        var u;
        u, x := ServeFirst(l, size);
        held, served := [u], true;
      }
    }
    assert requests[..|requests|] == requests;
    if x != null {
      ServingMeans(l, x, held, Peak(requests), top);
    }
  }

  lemma ServingMeans(l: XAllocator, x: Allocator, held: seq<Address>, peak: nat, top: Address)
    requires Serving(l, x, held, peak, top)
    ensures l.Valid() && l.heap.top == top + peak * x.blockSize
  {
    hide XAllocator.Valid;
  }
}
