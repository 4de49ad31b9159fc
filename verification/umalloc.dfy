/** malloc, free and morecore of umalloc.c on the linked headers of the blocks. */
module Umalloc {
  import opened KrHeap

  type Uint = x: int | 0 <= x < 0x1_0000_0000

  datatype Header = Header(ptr: int, size: int)

  /** A pointer to a header, or 0. */
  datatype Link = Nil | At(a: int)

  function Next(ring: seq<int>, i: nat): int
    requires i < |ring|
  {
    if i + 1 < |ring| then ring[i+1] else ring[0]
  }

  ghost predicate LinkAt(hdr: map<int, Header>, ring: seq<int>, i: nat) {
    i < |ring| && ring[i] in hdr && hdr[ring[i]].ptr == Next(ring, i)
  }

  ghost predicate Chain(hdr: map<int, Header>, ring: seq<int>) {
    forall i: nat :: i < |ring| ==> LinkAt(hdr, ring, i)
  }

  ghost predicate Sizes(hdr: map<int, Header>, h: Heap) {
    forall b :: Block(h, b) || b == BASE ==> b in hdr && b in h.size && hdr[b].size == h.size[b]
  }

  /** The headers link the ring and hold the sizes of all blocks. */
  ghost predicate Linked(hdr: map<int, Header>, h: Heap) {
    Chain(hdr, h.ring) && Sizes(hdr, h)
  }

  /** Nothing gained yet. */
  ghost function Empty(): Heap {
    Heap([BASE], map[BASE := 0], {}, map[])
  }

  // ---- sbrk ----

  const KERNBASE: int := 0x8000_0000

  type Int = x: int | -0x8000_0000 <= x < 0x8000_0000

  /** Process sizes: below the kernel, whole headers. */
  type Size = x: int | 0 <= x < KERNBASE && x % 8 == 0

  /** proc->sz, and the bytes of memory that the process really has. */
  datatype Break = Break(sz: Size, memory: Size)

  /** Every unit of memory in blocks lies in the first `bytes` bytes. */
  ghost predicate Below(h: Heap, bytes: int) {
    forall a :: a in h.who ==> 8 * (a + 1) <= bytes
  }

  /**
    What sbrk(n) makes of the break, and what it returns.  n <= 0 returns the old
    break and gives nothing; it fails exactly if the new size would be 0, when
    deallocuvm has taken all pages already.
   */
  function Grown(b: Break, n: Int, pages: bool): (Break, Link)
    requires n % 8 == 0
  {
    if n > 0 then
      if b.sz + n < KERNBASE && pages then (Break(b.sz + n, b.sz + n), At(b.sz / 8)) else (b, Nil)
    else if n == 0 || b.sz + n < 0 then (b, if n < 0 && b.sz == 0 then Nil else At(b.sz / 8))
    else if b.sz + n == 0 then (Break(b.sz, 0), Nil)
    else (Break(b.sz + n, b.sz + n), At(b.sz / 8))
  }

  function Int32(x: nat): Int {
    var y := x % 0x1_0000_0000;
    if y < 0x8000_0000 then y else y - 0x1_0000_0000
  }

  /** The byte count as sbrk sees it. */
  function Count(nu: nat): Int {
    Int32(8 * CoreSize(nu))
  }

  function Core(b: Break, nu: nat, pages: bool): (Break, Link) {
    CountAligned(nu);
    Grown(b, Count(nu), pages)
  }

  lemma CountAligned(nu: nat)
    ensures Count(nu) % 8 == 0
  {
  }

  lemma CoreIs(b: Break, nu: nat, pages: bool)
    ensures Count(nu) % 8 == 0 && Core(b, nu, pages) == Grown(b, Count(nu), pages)
    ensures Core(b, nu, pages).1.At? ==> Core(b, nu, pages).1.a == b.sz / 8
  {
    CountAligned(nu);
  }

  /** The count arrives positive exactly if it is below 2 GB. */
  lemma CountPositive(nbytes: Uint)
    ensures Count(Needs(nbytes)) > 0 <==> 8 * CoreSize(Needs(nbytes)) < 0x8000_0000
    ensures 0 < Needs(nbytes) <= 0x2000_0000
    ensures 8 * CoreSize(Needs(nbytes)) >= 0x8000_0000 ==> CoreSize(Needs(nbytes)) == Needs(nbytes)
  {
  }

  /** The requests for which it does not. */
  lemma CountPositiveIff(nbytes: Uint)
    ensures Count(Needs(nbytes)) > 0 <==> nbytes < 0x7FFF_FFF1 || nbytes > 0xFFFF_FFF8
  {
    var n := Needs(nbytes);
    assert nbytes <= 0xFFFF_FFF8 ==> n == (nbytes + 7) / 8 + 1;
    assert nbytes > 0xFFFF_FFF8 ==> n == 1;
  }

  /** The smallest of them: whatever the process size, sbrk returns the break and gives none of the 2 GB. */
  lemma HugeRequest(b: Break, pages: bool)
    requires b.sz > 0
    ensures CoreSize(Needs(0x7FFF_FFF1)) == 0x1000_0000
    ensures Core(b, Needs(0x7FFF_FFF1), pages) == (b, At(b.sz / 8))
  {
    assert Needs(0x7FFF_FFF1) == 0x1000_0000;
  }

  /** When malloc's call of sbrk fails: no memory, or a count that takes the process down to nothing. */
  lemma CoreFailsIff(b: Break, nbytes: Uint, pages: bool)
    requires b.sz > 0
    ensures var n := 8 * CoreSize(Needs(nbytes));
      Core(b, Needs(nbytes), pages).1 == Nil <==>
        if n < 0x8000_0000 then b.sz + n >= KERNBASE || !pages else b.sz + n == 0x1_0000_0000
  {
    CountPositive(nbytes);
  }

  lemma BrkAbove(h: Heap, b: Break)
    requires 8 * (BASE + 1) <= b.sz && Below(h, b.sz)
    ensures Above(h, b.sz / 8)
  {
  }

  /** After sbrk the blocks lie in the process's memory exactly if the count was positive. */
  lemma BackedBy(h: Heap, w: Heap, b: Break, c: Break, nu: nat, pages: bool)
    requires 8 * (BASE + 1) <= b.sz == b.memory && Below(h, b.sz) && 0 < nu <= 0x2000_0000
    requires c == Core(b, nu, pages).0
    requires Core(b, nu, pages).1 == Nil ==> w == h
    requires Core(b, nu, pages).1.At? ==> Enlarged(h, w, b.sz / 8, CoreSize(nu))
    ensures c.memory == c.sz && 8 * (BASE + 1) <= c.sz && Below(w, c.memory) <==> Count(nu) > 0
  {
    CoreIs(b, nu, pages);
    var at, n := b.sz / 8, CoreSize(nu);
    if Core(b, nu, pages).1.At? {
      assert at in Units(at, n);
      assert at in w.who;
    }
    if Count(nu) > 0 { assert Count(nu) == 8 * n; }
  }

  lemma FreedMemory(h: Heap, w: Heap, b: int, bytes: int)
    requires Released(h, w, b)
    ensures Below(h, bytes) <==> Below(w, bytes)
  {
    assert forall a :: a in h.who <==> a in h.who.Keys;
    assert forall a :: a in w.who <==> a in w.who.Keys;
  }

  lemma CarvedBlock(u: Heap, w: Heap, b: int, n: nat)
    requires Carved(u, w, b, n)
    ensures b in w.live && b in w.size && w.size[b] == n
  {
  }

  lemma SameMemory(u: Heap, w: Heap, b: int, n: nat, bytes: int)
    requires Carved(u, w, b, n)
    ensures Below(u, bytes) <==> Below(w, bytes)
  {
    assert forall a :: a in u.who <==> a in u.who.Keys;
    assert forall a :: a in w.who <==> a in w.who.Keys;
  }

  /** A block lies in the process's memory if all blocks do, and cannot if it has 2 GB or more. */
  lemma InMemory(w: Heap, b: int, n: nat, brk: Break)
    requires Inv(w) && b in w.live && b in w.size && w.size[b] == n && n > 0
    ensures Below(w, brk.memory) ==> 8 * (b + n) <= brk.memory
    ensures 8 * n >= 0x8000_0000 ==> 8 * (b + n) > brk.memory
  {
    assert Block(w, b);
    assert In(w, b, b + n - 1);
  }

  class Allocator {
    var hdr: map<int, Header>
    var freep: Link
    var brk: Break
    ghost var h: Heap

    /** The process's memory takes in `base` and every block, up to the break. */
    ghost predicate Backed()
      reads this
    {
      brk.memory == brk.sz && 8 * (BASE + 1) <= brk.sz && Below(h, brk.memory)
    }

    ghost predicate Valid()
      reads this
    {
      && Inv(h) && NoTouch(h)
      && (freep == Nil ==> h == Empty())
      && (freep.At? ==> Linked(hdr, h) && freep.a in h.ring)
    }

    /** A program that exec has just given sz bytes, its static data among them. */
    constructor (sz: Size)
      requires 8 * (BASE + 1) <= sz
      ensures Valid() && Backed() && h == Empty() && brk == Break(sz, sz)
    {
      hdr, freep, h, brk := map[], Nil, Empty(), Break(sz, sz);
    }

    /** sys_sbrk and growproc; pages is whether allocuvm gets all the pages it asks for. */
    method Sbrk(n: Int, pages: bool) returns (core: Link)
      requires n % 8 == 0
      modifies this`brk
      ensures (brk, core) == Grown(old(brk), n, pages)
      ensures n > 0 ==> (core == Nil <==> old(brk).sz + n >= KERNBASE || !pages)
      ensures n <= 0 ==> (core == Nil <==> n < 0 && (old(brk).sz == 0 || old(brk).sz + n == 0))
      ensures core.At? ==> 8 * core.a == old(brk).sz
      ensures brk.sz == if core.At? && old(brk).sz + n > 0 then old(brk).sz + n else old(brk).sz
    {
      var addr: int := brk.sz;
      if n > 0 {
        if brk.sz + n >= KERNBASE || !pages { return Nil; }
        brk := Break(brk.sz + n, brk.sz + n);
      } else if n < 0 {
        // deallocuvm returns the old size when the 32-bit sum has wrapped
        var newsz := (brk.sz + n) % 0x1_0000_0000;
        if newsz < brk.sz {
          if newsz == 0 {
            brk := Break(brk.sz, 0);
            return Nil;
          }
          brk := Break(newsz, newsz);
        } else if brk.sz == 0 {
          return Nil;
        }
      }
      return At(addr / 8);
    }

    /** The loop of free: the free block after which bp belongs. */
    method FindPlace(bp: int) returns (p: int, ghost t: nat)
      requires Valid() && freep.At? && bp in h.live
      ensures t < |h.ring| && p == h.ring[t] && Between(h, t + 1, bp)
    {
      hide Tiles, NoTouch, Chain;
      t := Place(h, bp);
      p := freep.a;
      ghost var i: nat :| i < |h.ring| && h.ring[i] == p;
      ChainAt(hdr, h.ring, i);
      while !(bp > p && bp < hdr[p].ptr)
        invariant i < |h.ring| && p == h.ring[i] && LinkAt(hdr, h.ring, i)
        decreases if i <= t then t - i else |h.ring| - i + t
      {
        Ordered(h, t, i, bp);
        if p >= hdr[p].ptr && (bp > p || bp < hdr[p].ptr) { break; }
        p := hdr[p].ptr;
        i := if i + 1 < |h.ring| then i + 1 else 0;
        ChainAt(hdr, h.ring, i);
      }
      Ordered(h, t, i, bp);
    }

    /** free of the block with header bp. */
    method Free(bp: int) returns (ghost t: nat)
      requires Valid() && freep.At? && bp in h.live
      modifies this
      ensures Valid() && Released(old(h), h, bp) && brk == old(brk) && (Backed() <==> old(Backed()))
      ensures FreedAt(old(h), h, bp, t) && freep == At(old(h).ring[t]) && t < |h.ring| && h.ring[t] == old(h).ring[t]
    {
      hide Inv, NoTouch, InsertAt, Merge, Linked, Released, Below;
      var p;
      p, t := FindPlace(bp);
      ghost var h0, g := h, hdr;
      LinkInsert(g, h0, t, bp);
      FreeInv(h0, t, bp);
      FreeTouches(g, h0, t, bp);
      var nx := hdr[p].ptr;
      ghost var u, gU := Insert(h0, t + 1, bp), g[bp := Header(nx, g[bp].size)][p := Header(bp, g[p].size)];
      ghost var v, gV := FreeUp(h0, t, bp), gU;
      if bp + hdr[bp].size == nx {
        LinkMerge(gU, u, t + 1);
        gV := gU[bp := Header(gU[nx].ptr, gU[bp].size + gU[nx].size)];
        hdr := hdr[bp := Header(hdr[nx].ptr, hdr[bp].size + hdr[nx].size)];
      } else {
        hdr := hdr[bp := Header(nx, hdr[bp].size)];
      }
      assert hdr[p := Header(bp, hdr[p].size)] == gV;
      if p + hdr[p].size == bp {
        LinkMerge(gV, v, t);
        hdr := hdr[p := Header(hdr[bp].ptr, hdr[p].size + hdr[bp].size)];
        assert hdr == gV[p := Header(gV[bp].ptr, gV[p].size + gV[bp].size)];
      } else {
        hdr := hdr[p := Header(bp, hdr[p].size)];
      }
      freep := At(p);
      h := FreeBlock(h0, t, bp);
      FreedMemory(h0, h, bp, brk.memory);
    }

    /**
      Asks sbrk for 8 * CoreSize(nu) bytes, passed as an int, and takes any address
      it returns for that many.
     */
    method MoreCore(nu: nat, pages: bool) returns (r: Link, ghost t: nat)
      requires Valid() && Backed() && freep.At? && 0 < nu <= 0x2000_0000
      modifies this
      ensures Valid() && freep.At?
      ensures brk == Core(old(brk), nu, pages).0 && (r == Nil <==> Core(old(brk), nu, pages).1 == Nil)
      ensures r == Nil ==> h == old(h)
      ensures r.At? ==> r == freep && Enlarged(old(h), h, old(brk).sz / 8, CoreSize(nu)) && HasFree(h, nu)
      ensures r.At? ==>
        FreedAt(Gain(old(h), old(brk).sz / 8, CoreSize(nu)), h, old(brk).sz / 8, t) && t < |h.ring| && h.ring[t] == r.a
      ensures Backed() <==> Count(nu) > 0
    {
      hide Inv, NoTouch, Linked, Released, Above, FreedAt, Below;
      var n := CoreSize(nu);
      t := 0;
      BrkAbove(h, brk);
      CoreIs(brk, nu, pages);
      ghost var b0 := brk;
      var core := Sbrk(Count(nu), pages);
      if core == Nil {
        BackedBy(h, h, b0, brk, nu, pages);
        return Nil, 0;
      }
      GainInv(h, core.a, n);
      LinkGain(hdr, h, core.a, n);
      ghost var h0 := h;
      hdr := hdr[core.a := Header(0, n)];
      h := Gain(h, core.a, n);
      t := Free(core.a);
      EnlargedBy(h0, h, core.a, n, nu);
      BackedBy(h0, h, b0, brk, nu, pages);
      return freep, t;
    }

    /** malloc has found free block p, after prevp, large enough: all of it, or its tail. */
    method Carve(p: int, prevp: int, n: nat, ghost i: nat) returns (b: int)
      requires Valid() && freep.At? && i < |h.ring| && p == h.ring[i] && prevp == h.ring[Before(h.ring, i)]
      requires p in hdr && hdr[p].size >= n > 0
      modifies this
      ensures Valid() && freep == At(prevp) && Carved(old(h), h, b, n) && CarvedAt(old(h), h, i, n, b)
      ensures brk == old(brk)
    {
      hide Inv, NoTouch, Linked, Carved;
      ghost var h0 := h;
      NotBase(hdr, h, i);
      LinkedAt(hdr, h, i);
      LinkedAt(hdr, h, i - 1);
      if hdr[p].size == n {
        LinkTake(hdr, h, i);
        TakeInv(h, i);
        CarvedWhole(h, i);
        hdr := hdr[prevp := Header(hdr[p].ptr, hdr[prevp].size)];
        h := Take(h, i);
        b := p;
      } else {
        LinkCut(hdr, h, i, n);
        CutInv(h, i, n);
        CarvedTail(h, i, n);
        hdr := hdr[p := Header(hdr[p].ptr, hdr[p].size - n)];
        b := p + hdr[p].size;
        hdr := hdr[b := Header(0, n)];
        h := Cut(h, i, n);
      }
      freep := At(prevp);
      StillThere(h0, h, i);
    }

    /** Carve, seen from the heap h0 that malloc was called on and the memory that it has got since. */
    method Grant(p: int, prevp: int, n: nat, ghost i: nat, ghost h0: Heap, ghost core: Link) returns (b: int)
      requires Valid() && freep.At? && i < |h.ring| && p == h.ring[i] && prevp == h.ring[Before(h.ring, i)]
      requires p in hdr && hdr[p].size >= n > 0
      requires core == Nil ==> h == h0
      requires core.At? ==> Enlarged(h0, h, core.a, CoreSize(n))
      modifies this
      ensures Valid() && 0 < i < |old(h).ring| && freep == At(old(h).ring[i-1]) && brk == old(brk)
      ensures Allocated(h0, h, b, n, core) && CarvedAt(old(h), h, i, n, b) && FitsAt(old(h), i, n)
      ensures Backed() <==> old(Backed())
      ensures Backed() ==> 8 * (b + n) <= brk.memory
      ensures 8 * n >= 0x8000_0000 ==> 8 * (b + n) > brk.memory
    {
      hide Inv, NoTouch, Linked, Allocated, Enlarged, CarvedAt, Below, FitsAt, Carved;
      ghost var u := h;
      NotBase(hdr, h, i);
      LinkedAt(hdr, h, i);
      b := Carve(p, prevp, n, i);
      AllocatedBy(h0, u, h, b, n, core);
      SameMemory(u, h, b, n, brk.memory);
      CarvedBlock(u, h, b, n);
      InMemory(h, b, n, brk);
    }

    /**
      Returns the memory after the header of the new block, and how often it called
      morecore.  u is the heap it found the block in: position i is the first fit
      after position f.
     */
    method Malloc(nbytes: Uint, pages: bool) returns (r: Link, calls: nat, ghost u: Heap, ghost f: nat, ghost i: nat)
      requires Valid() && Backed()
      modifies this
      ensures Valid() && (calls == if HasFree(old(h), Needs(nbytes)) then 0 else 1)
      ensures brk == if calls == 0 then old(brk) else Core(old(brk), Needs(nbytes), pages).0
      ensures r == Nil <==> calls == 1 && Core(old(brk), Needs(nbytes), pages).1 == Nil
      ensures r == Nil ==> h == old(h)
      ensures r.At? ==>
        Allocated(old(h), h, r.a - 1, Needs(nbytes), if calls == 1 then At(old(brk).sz / 8) else Nil)
      ensures r.At? ==>
        FirstFit(u, f, i, Needs(nbytes)) && CarvedAt(u, h, i, Needs(nbytes), r.a - 1) && freep == At(u.ring[i-1])
      ensures r.At? && calls == 0 ==> u == old(h) && u.ring[f] == if old(freep) == Nil then BASE else old(freep).a
      ensures r.At? && calls == 1 ==>
        FreedAt(Gain(old(h), old(brk).sz / 8, CoreSize(Needs(nbytes))), u, old(brk).sz / 8, f)
      ensures Backed() <==> HasFree(old(h), Needs(nbytes)) || 8 * CoreSize(Needs(nbytes)) < 0x8000_0000
      ensures r.At? ==> (8 * (r.a - 1 + Needs(nbytes)) <= brk.memory <==> Backed())
    {
      hide Inv, NoTouch, Linked, Above, Allocated, Enlarged, FitsAt, Passed, HasFree, FreedAt, CarvedAt, Below,
        FirstFit;
      hide Core, Count, Since, Turning, Left, Needs, CoreSize;
      var nunits := Needs(nbytes);
      ghost var h0, b0 := h, brk;
      CountPositive(nbytes);
      if freep == Nil {
        EmptyLinks(hdr);
        hdr := hdr[BASE := Header(BASE, 0)];
        freep := At(BASE);
      }
      ghost var a0 := freep.a;
      var prevp := freep.a;
      f :| f < |h.ring| && h.ring[f] == prevp;
      FirstTurn(hdr, h, f, nunits);
      var p := hdr[prevp].ptr;
      i := After(h.ring, f);
      calls := 0;
      NotCalled(h0, b0, nunits, pages, f);
      while true
        invariant Valid() && freep.At? && calls <= 1 && Turning(h, freep.a, p, prevp, nunits, f, i)
        invariant Since(h0, b0, a0, h, brk, calls, nunits, pages, f)
        invariant Backed() <==> calls == 0 || Count(nunits) > 0
        decreases 1 - calls, Left(h, f, i)
      {
        TurnAt(hdr, h, freep.a, p, prevp, nunits, f, i);
        if hdr[p].size >= nunits {
          u := h;
          SinceFound(h0, b0, a0, h, brk, calls, nunits, pages, f, i);
          var b := Grant(p, prevp, nunits, i, h0, if calls == 1 then At(b0.sz / 8) else Nil);
          Found(u, nunits, f, i);
          return At(b + 1), calls, u, f, i;
        }
        if p == freep.a {
          SinceNone(h0, b0, a0, h, brk, calls, nunits, pages, f, i);
          var q;
          q, f := MoreCore(nunits, pages);
          calls := calls + 1;
          if q == Nil { return Nil, calls, h, 0, 0; }
          SinceCalled(h0, b0, a0, h, brk, nunits, pages, f);
          p := q.a;
          FirstTurn(hdr, h, f, nunits);
          prevp, p, i := p, hdr[p].ptr, After(h.ring, f);
        } else {
          NextTurn(hdr, h, freep.a, p, prevp, nunits, f, i);
          prevp, p, i := p, hdr[p].ptr, After(h.ring, i);
        }
      }
    }
  }

  /** Where in the sorted ring b belongs. */
  lemma Place(h: Heap, b: int) returns (t: nat)
    requires Inv(h) && b in h.live
    ensures t < |h.ring| && Between(h, t + 1, b)
  {
    assert Block(h, b);
    t := 0;
    while t + 1 < |h.ring| && h.ring[t+1] < b
      invariant t < |h.ring| && h.ring[t] < b
    {
      t := t + 1;
    }
  }

  /** Against the place of b, ring position i is before, at, or after. */
  lemma Ordered(h: Heap, t: nat, i: nat, b: int)
    requires Inv(h) && t < |h.ring| && Between(h, t + 1, b) && i < |h.ring|
    ensures i <= t <==> h.ring[i] < b
    ensures i < t ==> i + 1 < |h.ring| && h.ring[i+1] < b
    ensures BASE < b && (i + 1 < |h.ring| ==> h.ring[i] < h.ring[i+1]) && BASE <= h.ring[i]
  {
    assert Sorted(h.ring);
  }

  // ---- links ----

  lemma ChainInsert(hdr: map<int, Header>, g: map<int, Header>, ring: seq<int>, t: nat, b: int)
    requires Sorted(ring) && Chain(hdr, ring) && t < |ring| && b !in ring
    requires ring[t] in g && b in g && g[ring[t]].ptr == b && g[b].ptr == Next(ring, t)
    requires forall x :: x in ring && x != ring[t] && x in hdr ==> x in g && g[x].ptr == hdr[x].ptr
    ensures Chain(g, InsertAt(ring, t + 1, b))
  {
    hide InsertAt, Chain;
    var s := InsertAt(ring, t + 1, b);
    InsertIndex(ring, t + 1, b, 0);
    forall i: nat | i < |s| ensures LinkAt(g, s, i) {
      InsertIndex(ring, t + 1, b, i);
      if i + 1 < |s| { InsertIndex(ring, t + 1, b, i + 1); }
      if i < t { ChainAt(hdr, ring, i); assert ring[i] < ring[t]; }
      if i > t + 1 { ChainAt(hdr, ring, i - 1); assert ring[t] < ring[i-1]; }
    }
    ChainAll(g, s);
  }

  lemma ChainRemove(hdr: map<int, Header>, g: map<int, Header>, ring: seq<int>, i: nat)
    requires Sorted(ring) && Chain(hdr, ring) && i + 1 < |ring|
    requires ring[i] in g && g[ring[i]].ptr == Next(ring, i + 1)
    requires forall x :: x in ring && x != ring[i] && x in hdr ==> x in g && g[x].ptr == hdr[x].ptr
    ensures Chain(g, RemoveAt(ring, i + 1))
  {
    hide RemoveAt, Chain;
    var s := RemoveAt(ring, i + 1);
    RemoveIndex(ring, i + 1, 0);
    forall k: nat | k < |s| ensures LinkAt(g, s, k) {
      RemoveIndex(ring, i + 1, k);
      if k + 1 < |s| { RemoveIndex(ring, i + 1, k + 1); }
      ChainAt(hdr, ring, if k <= i then k else k + 1);
      if k < i { assert ring[k] < ring[i]; }
      if k > i { assert ring[i] < ring[k+1]; }
    }
    ChainAll(g, s);
  }

  lemma ChainAt(hdr: map<int, Header>, ring: seq<int>, i: nat)
    requires Chain(hdr, ring) && i < |ring|
    ensures LinkAt(hdr, ring, i)
  {
  }

  lemma ChainAll(hdr: map<int, Header>, ring: seq<int>)
    requires forall i: nat :: i < |ring| ==> LinkAt(hdr, ring, i)
    ensures Chain(hdr, ring)
  {
  }

  /** A new free block after position t. */
  lemma LinkInsert(hdr: map<int, Header>, h: Heap, t: nat, b: int)
    requires Inv(h) && Linked(hdr, h) && b in h.live && t < |h.ring| && Between(h, t + 1, b)
    ensures b in hdr && h.ring[t] in hdr
    ensures var p := h.ring[t];
      Linked(hdr[b := Header(hdr[p].ptr, hdr[b].size)][p := Header(b, hdr[p].size)], Insert(h, t + 1, b))
  {
    hide InsertAt, Tiles, Chain;
    var p, u := h.ring[t], Insert(h, t + 1, b);
    assert Block(h, b);
    ChainAt(hdr, h.ring, t);
    var g := hdr[b := Header(hdr[p].ptr, hdr[b].size)][p := Header(b, hdr[p].size)];
    InsertMembers(h.ring, t + 1, b);
    ChainInsert(hdr, g, h.ring, t, b);
    forall c | Block(u, c) || c == BASE ensures c in g && c in u.size && g[c].size == u.size[c] {
      assert Block(h, c) || c == BASE;
    }
  }

  /** Free blocks i and i + 1 made one. */
  lemma LinkMerge(hdr: map<int, Header>, h: Heap, i: nat)
    requires Inv(h) && Linked(hdr, h) && Touch(h, i)
    ensures h.ring[i] in hdr && h.ring[i+1] in hdr
    ensures var b, c := h.ring[i], h.ring[i+1];
      Linked(hdr[b := Header(hdr[c].ptr, hdr[b].size + hdr[c].size)], Merge(h, i))
  {
    hide RemoveAt, Tiles, Chain;
    var b, c, w := h.ring[i], h.ring[i+1], Merge(h, i);
    assert Block(h, b) && Block(h, c);
    ChainAt(hdr, h.ring, i);
    ChainAt(hdr, h.ring, i + 1);
    var g := hdr[b := Header(hdr[c].ptr, hdr[b].size + hdr[c].size)];
    RemoveMembers(h.ring, i + 1);
    ChainRemove(hdr, g, h.ring, i);
    forall d | Block(w, d) || d == BASE ensures d in g && d in w.size && g[d].size == w.size[d] {
      assert Block(h, d) || d == BASE;
    }
  }

  // ---- what free does to the blocks ----

  /** b joins the ring after position t and merges with the block above if they touch ... */
  ghost function FreeUp(h: Heap, t: nat, b: int): Heap
    requires Inv(h) && b in h.live && t < |h.ring| && Between(h, t + 1, b)
  {
    InsertInv(h, t + 1, b);
    var u := Insert(h, t + 1, b);
    if Touch(u, t + 1) then Merge(u, t + 1) else u
  }

  /** ... and with the block below. */
  ghost function FreeBlock(h: Heap, t: nat, b: int): Heap
    requires Inv(h) && b in h.live && t < |h.ring| && Between(h, t + 1, b)
  {
    FreeUpInv(h, t, b);
    var v := FreeUp(h, t, b);
    if Touch(v, t) then Merge(v, t) else v
  }

  ghost predicate FreedAt(h: Heap, w: Heap, b: int, t: nat) {
    Inv(h) && b in h.live && t < |h.ring| && Between(h, t + 1, b) && w == FreeBlock(h, t, b)
  }

  lemma FreeUpInv(h: Heap, t: nat, b: int)
    requires Inv(h) && b in h.live && t < |h.ring| && Between(h, t + 1, b)
    ensures Inv(FreeUp(h, t, b))
  {
    InsertInv(h, t + 1, b);
    var u := Insert(h, t + 1, b);
    if Touch(u, t + 1) { MergeInv(u, t + 1); }
  }

  /** The same memory, b free, every other live block as it was, and a free block at least as large as b. */
  ghost predicate Released(h: Heap, w: Heap, b: int) {
    && w.live == h.live - {b} && w.who.Keys == h.who.Keys && b in h.size
    && (forall c :: c in w.live ==> c in h.size && c in w.size && w.size[c] == h.size[c])
    && HasFree(w, h.size[b])
  }

  ghost predicate HasFree(w: Heap, n: int) {
    exists i: nat :: i < |w.ring| && FitsAt(w, i, n)
  }

  ghost predicate FitsAt(w: Heap, i: nat, n: int)
    requires i < |w.ring|
  {
    w.ring[i] in w.size && w.size[w.ring[i]] >= n
  }

  /** A merge keeps the live blocks and the memory, and its block holds both. */
  lemma MergeKeeps(h: Heap, i: nat)
    requires Inv(h) && Touch(h, i)
    ensures var w := Merge(h, i);
      && w.live == h.live && w.who.Keys == h.who.Keys
      && (forall c :: c in h.live ==> c in w.size && w.size[c] == h.size[c])
      && |w.ring| == |h.ring| - 1 && (forall k: nat :: k <= i ==> w.ring[k] == h.ring[k])
      && h.ring[i] in w.size && w.size[h.ring[i]] >= h.size[h.ring[i]] && w.size[h.ring[i]] >= h.size[h.ring[i+1]]
      && (forall k: nat :: k < i ==> h.ring[k] in w.size && w.size[h.ring[k]] == h.size[h.ring[k]])
  {
    assert Block(h, h.ring[i]) && Block(h, h.ring[i+1]);
    assert Sorted(h.ring);
  }

  lemma InsertedAt(h: Heap, t: nat, b: int)
    requires t < |h.ring|
    ensures var u := Insert(h, t + 1, b);
      && |u.ring| == |h.ring| + 1 && u.ring[t] == h.ring[t] && u.ring[t+1] == b
      && (t + 2 < |u.ring| ==> u.ring[t+2] == h.ring[t+1])
  {
  }

  /** The tests of free are the touches. */
  lemma FreeTouches(g: map<int, Header>, h: Heap, t: nat, b: int)
    requires Inv(h) && Linked(g, h) && b in h.live && t < |h.ring| && Between(h, t + 1, b)
    ensures b in g && h.ring[t] in g && b != h.ring[t]
    ensures var p, nx, u, v := h.ring[t], g[h.ring[t]].ptr, Insert(h, t + 1, b), FreeUp(h, t, b);
      && Inv(u) && Inv(v)
      && (b + g[b].size == nx <==> Touch(u, t + 1))
      && (Touch(u, t + 1) ==> u.ring[t+1] == b && u.ring[t+2] == nx && nx in g && nx != p && nx != b)
      && (p + g[p].size == b <==> Touch(v, t)) && t + 1 < |v.ring| && v.ring[t] == p && v.ring[t+1] == b
  {
    hide Tiles, InsertAt, RemoveAt, Merge;
    var p, u := h.ring[t], Insert(h, t + 1, b);
    assert Block(h, b) && Sorted(h.ring);
    ChainAt(g, h.ring, t);
    if t + 1 < |h.ring| { ChainAt(g, h.ring, t + 1); }
    InsertedAt(h, t, b);
    InsertInv(h, t + 1, b);
    FreeUpInv(h, t, b);
    if Touch(u, t + 1) { MergeKeeps(u, t + 1); }
    assert t > 0 ==> Block(h, p);
  }

  lemma FreeInv(h: Heap, t: nat, b: int)
    requires Inv(h) && NoTouch(h) && b in h.live && t < |h.ring| && Between(h, t + 1, b)
    ensures var w := FreeBlock(h, t, b);
      Inv(w) && NoTouch(w) && Released(h, w, b) && t < |w.ring| && w.ring[t] == h.ring[t]
  {
    hide Tiles, InsertAt, RemoveAt, Merge;
    var u, v, w := Insert(h, t + 1, b), FreeUp(h, t, b), FreeBlock(h, t, b);
    assert Block(h, b);
    InsertedAt(h, t, b);
    InsertInv(h, t + 1, b);
    if Touch(u, t + 1) { MergeKeeps(u, t + 1); MergeInv(u, t + 1); }
    if Touch(v, t) { MergeKeeps(v, t); MergeInv(v, t); }
    FreeNoTouch(h, t, b);
    assert FitsAt(w, if Touch(v, t) then t else t + 1, h.size[b]);
  }

  lemma FreeNoTouch(h: Heap, t: nat, b: int)
    requires Inv(h) && NoTouch(h) && b in h.live && t < |h.ring| && Between(h, t + 1, b)
    ensures NoTouch(FreeBlock(h, t, b))
  {
    hide Tiles, InsertAt, RemoveAt, Merge, Touch;
    var u, v, w := Insert(h, t + 1, b), FreeUp(h, t, b), FreeBlock(h, t, b);
    assert Block(h, b);
    InsertInv(h, t + 1, b);
    FreeUpInv(h, t, b);
    forall j | Touch(u, j) ensures j == t || j == t + 1 { InsertTouch(h, t + 1, b, j); }
    if Touch(u, t + 1) {
      forall j | Touch(v, j) ensures j == t { MergeTouch(u, t + 1, j); }
    }
    if Touch(v, t) {
      forall j | Touch(w, j) ensures Touch(v, if j < t then j else j + 1) { MergeTouch(v, t, j); }
    }
  }

  // ---- malloc ----

  /** The units for nbytes and a header; the sum is in 32 bits. */
  function Needs(nbytes: Uint): nat {
    (nbytes + 7) % 0x1_0000_0000 / 8 + 1
  }

  /** The block has room for the request exactly if the sum does not wrap, and never a unit too many. */
  lemma NeedsIff(nbytes: Uint)
    ensures 8 * (Needs(nbytes) - 1) >= nbytes <==> nbytes + 7 < 0x1_0000_0000
    ensures 8 * (Needs(nbytes) - 1) < nbytes + 8
  {
  }

  /** The smallest request that wraps gets a header and nothing behind it. */
  lemma WrappedRequest()
    ensures Needs(0xFFFF_FFF9) == 1
  {
  }

  function CoreSize(nu: nat): (n: nat)
    ensures n >= nu && n >= 4096 && (n == nu || n == 4096)
  {
    if nu < 4096 then 4096 else nu
  }

  /** n more units from b on; the live blocks are as before. */
  ghost predicate Enlarged(h: Heap, w: Heap, b: int, n: nat) {
    && w.live == h.live && w.who.Keys == h.who.Keys + Units(b, n)
    && (forall c :: c in w.live ==> c in h.size && c in w.size && w.size[c] == h.size[c])
  }

  /** Block b of n units is handed out, the other live blocks are as before; core is new memory, if any. */
  ghost predicate Allocated(h: Heap, w: Heap, b: int, n: nat, core: Link) {
    && b !in h.live && w.live == h.live + {b} && b in w.size && w.size[b] == n
    && (forall c :: c in h.live ==> c in h.size && c in w.size && w.size[c] == h.size[c])
    && w.who.Keys == h.who.Keys + if core.At? then Units(core.a, CoreSize(n)) else {}
  }

  lemma LinkGain(hdr: map<int, Header>, h: Heap, b: int, n: nat)
    requires Inv(h) && Linked(hdr, h) && Above(h, b) && n > 0
    ensures Linked(hdr[b := Header(0, n)], Gain(h, b, n))
  {
    hide Chain;
    GainInv(h, b, n);
    var g, w := hdr[b := Header(0, n)], Gain(h, b, n);
    assert Block(h, b) ==> In(h, b, b);
    forall i: nat | i < |h.ring| ensures LinkAt(g, h.ring, i) {
      ChainAt(hdr, h.ring, i);
      assert h.ring[i] in h.ring;
    }
    ChainAll(g, w.ring);
    forall d | Block(w, d) || d == BASE ensures d in g && d in w.size && g[d].size == w.size[d] {
      assert Block(h, d) || d == BASE || d == b;
    }
  }

  lemma EnlargedBy(h: Heap, w: Heap, b: int, n: nat, nu: nat)
    requires Inv(h) && Above(h, b) && Released(Gain(h, b, n), w, b) && n >= nu > 0
    ensures Enlarged(h, w, b, n) && HasFree(w, nu)
  {
    assert Block(h, b) ==> In(h, b, b);
    assert Gain(h, b, n).who.Keys == h.who.Keys + Units(b, n);
    var i: nat :| i < |w.ring| && FitsAt(w, i, n);
    assert FitsAt(w, i, nu);
  }

  // ---- once around the ring, from after position f to f ----

  function After(ring: seq<int>, i: nat): nat
    requires i < |ring|
  {
    if i + 1 < |ring| then i + 1 else 0
  }

  function Before(ring: seq<int>, i: nat): nat
    requires i < |ring|
  {
    if i > 0 then i - 1 else |ring| - 1
  }

  function Turn(ring: seq<int>, f: nat, j: nat): nat
    requires f < |ring| && j < |ring|
  {
    if j > f then j - f - 1 else j + |ring| - f - 1
  }

  /** The blocks from after position f to before position i are too small. */
  ghost predicate Passed(h: Heap, f: nat, i: nat, n: nat) {
    f < |h.ring| && i < |h.ring|
    && forall j: nat :: j < |h.ring| && Turn(h.ring, f, j) < Turn(h.ring, f, i) ==> !FitsAt(h, j, n)
  }

  /** Going round the ring from after position f, position i is the first block of n units or more. */
  ghost predicate FirstFit(u: Heap, f: nat, i: nat, n: nat) {
    f < |u.ring| && 0 < i < |u.ring| && Passed(u, f, i, n) && FitsAt(u, i, n)
  }

  /** The loop of malloc: freep is at position f, p at position i with prevp before it. */
  ghost predicate Turning(h: Heap, a: int, p: int, prevp: int, n: nat, f: nat, i: nat) {
    Passed(h, f, i, n) && h.ring[f] == a && h.ring[i] == p && h.ring[Before(h.ring, i)] == prevp
  }

  ghost function Left(h: Heap, f: nat, i: nat): int {
    if f < |h.ring| && i < |h.ring| then |h.ring| - Turn(h.ring, f, i) else 0
  }

  lemma FirstTurn(hdr: map<int, Header>, h: Heap, f: nat, n: nat)
    requires Inv(h) && Linked(hdr, h) && f < |h.ring|
    ensures h.ring[f] in hdr
    ensures Turning(h, h.ring[f], hdr[h.ring[f]].ptr, h.ring[f], n, f, After(h.ring, f))
  {
    hide FitsAt;
    LinkedAt(hdr, h, f);
  }

  lemma TurnAt(hdr: map<int, Header>, h: Heap, a: int, p: int, prevp: int, n: nat, f: nat, i: nat)
    requires Inv(h) && Linked(hdr, h) && Turning(h, a, p, prevp, n, f, i)
    ensures f < |h.ring| && i < |h.ring| && p == h.ring[i] && p in hdr && prevp == h.ring[Before(h.ring, i)]
    ensures (hdr[p].size >= n <==> FitsAt(h, i, n)) && Passed(h, f, i, n)
    ensures p == a ==> i == f
  {
    LinkedAt(hdr, h, i);
    assert Sorted(h.ring);
  }

  lemma NextTurn(hdr: map<int, Header>, h: Heap, a: int, p: int, prevp: int, n: nat, f: nat, i: nat)
    requires Inv(h) && Linked(hdr, h) && Turning(h, a, p, prevp, n, f, i) && p != a && !FitsAt(h, i, n)
    ensures p in hdr && i < |h.ring| && Turning(h, a, hdr[p].ptr, p, n, f, After(h.ring, i))
    ensures 0 <= Left(h, f, After(h.ring, i)) < Left(h, f, i)
  {
    hide FitsAt, Inv, Linked;
    LinkedAt(hdr, h, i);
    forall j: nat | j < |h.ring| && Turn(h.ring, f, j) < Turn(h.ring, f, After(h.ring, i)) ensures !FitsAt(h, j, n) {
      assert Turn(h.ring, f, j) < Turn(h.ring, f, i) || j == i;
    }
  }

  lemma Found(u: Heap, n: nat, f: nat, i: nat)
    requires Passed(u, f, i, n) && 0 < i < |u.ring| && FitsAt(u, i, n)
    ensures FirstFit(u, f, i, n)
  {
  }

  /** What malloc has done so far: nothing, from a0 on, or one successful morecore. */
  ghost predicate Since(h0: Heap, b0: Break, a0: int, h: Heap, b: Break, calls: nat, n: nat, pages: bool, f: nat) {
    if calls == 0 then
      h == h0 && b == b0 && f < |h.ring| && h.ring[f] == a0
    else
      && !HasFree(h0, n) && b == Core(b0, n, pages).0 && Core(b0, n, pages).1.At?
      && HasFree(h, n) && Enlarged(h0, h, b0.sz / 8, CoreSize(n))
      && FreedAt(Gain(h0, b0.sz / 8, CoreSize(n)), h, b0.sz / 8, f)
  }

  lemma NotCalled(h: Heap, b: Break, n: nat, pages: bool, f: nat)
    requires f < |h.ring|
    ensures Since(h, b, h.ring[f], h, b, 0, n, pages, f)
  {
  }

  lemma SinceFound(h0: Heap, b0: Break, a0: int, h: Heap, b: Break, calls: nat, n: nat, pages: bool, f: nat, i: nat)
    requires Since(h0, b0, a0, h, b, calls, n, pages, f) && calls <= 1 && i < |h.ring| && FitsAt(h, i, n)
    ensures HasFree(h0, n) <==> calls == 0
    ensures calls == 0 ==> h == h0 && b == b0 && f < |h.ring| && h.ring[f] == a0
    ensures calls == 1 ==> b == Core(b0, n, pages).0 && Core(b0, n, pages).1.At?
    ensures calls == 1 ==> Enlarged(h0, h, b0.sz / 8, CoreSize(n))
    ensures calls == 1 ==> FreedAt(Gain(h0, b0.sz / 8, CoreSize(n)), h, b0.sz / 8, f)
  {
    hide FitsAt, Core, Enlarged, FreedAt;
  }

  /** Back at freep without a fit: there is none, so morecore has not been called yet. */
  lemma SinceNone(h0: Heap, b0: Break, a0: int, h: Heap, b: Break, calls: nat, n: nat, pages: bool, f: nat, i: nat)
    requires Since(h0, b0, a0, h, b, calls, n, pages, f) && calls <= 1 && i == f
    requires Passed(h, f, f, n) && !FitsAt(h, f, n)
    ensures calls == 0 && h == h0 && b == b0 && !HasFree(h0, n)
  {
    hide FitsAt, Core, Enlarged, FreedAt;
    forall j: nat | j < |h.ring| ensures !FitsAt(h, j, n) {
      assert j != f ==> Turn(h.ring, f, j) < Turn(h.ring, f, f);
    }
  }

  lemma SinceCalled(h0: Heap, b0: Break, a0: int, h: Heap, b: Break, n: nat, pages: bool, f: nat)
    requires !HasFree(h0, n) && b == Core(b0, n, pages).0 && Core(b0, n, pages).1.At?
    requires HasFree(h, n) && Enlarged(h0, h, b0.sz / 8, CoreSize(n))
    requires FreedAt(Gain(h0, b0.sz / 8, CoreSize(n)), h, b0.sz / 8, f)
    ensures Since(h0, b0, a0, h, b, 1, n, pages, f)
  {
  }

  lemma LinkedAt(hdr: map<int, Header>, h: Heap, i: nat)
    requires Inv(h) && Linked(hdr, h) && i < |h.ring|
    ensures h.ring[i] in hdr && After(h.ring, i) < |h.ring| && hdr[h.ring[i]].ptr == h.ring[After(h.ring, i)]
    ensures h.ring[i] in h.size && hdr[h.ring[i]].size == h.size[h.ring[i]]
    ensures forall n: nat :: FitsAt(h, i, n) <==> hdr[h.ring[i]].size >= n
  {
    ChainAt(hdr, h.ring, i);
    assert Block(h, h.ring[i]) || h.ring[i] == BASE;
  }

  lemma NotBase(hdr: map<int, Header>, h: Heap, i: nat)
    requires Inv(h) && Linked(hdr, h) && i < |h.ring| && h.ring[i] in hdr && hdr[h.ring[i]].size > 0
    ensures 0 < i
  {
  }

  lemma EmptyLinks(hdr: map<int, Header>)
    ensures Linked(hdr[BASE := Header(BASE, 0)], Empty())
  {
    var g := hdr[BASE := Header(BASE, 0)];
    assert LinkAt(g, [BASE], 0);
  }

  // ---- what malloc does to the blocks ----

  /** An exact fit leaves the ring, a larger block gives its tail. */
  ghost predicate CarvedAt(h: Heap, w: Heap, i: nat, n: nat, b: int) {
    && 0 < i < |h.ring| && h.ring[i] in h.size
    && if h.size[h.ring[i]] == n then w == Take(h, i) && b == h.ring[i]
       else w == Cut(h, i, n) && b == End(h, h.ring[i]) - n
  }

  ghost predicate Carved(h: Heap, w: Heap, b: int, n: nat) {
    && b !in h.live && w.live == h.live + {b} && b in w.size && w.size[b] == n && w.who.Keys == h.who.Keys
    && (forall c :: c in h.live ==> c in h.size && c in w.size && w.size[c] == h.size[c])
  }

  lemma CarvedWhole(h: Heap, i: nat)
    requires Inv(h) && 0 < i < |h.ring|
    ensures Carved(h, Take(h, i), h.ring[i], h.size[h.ring[i]])
  {
    assert Block(h, h.ring[i]);
  }

  lemma CarvedTail(h: Heap, i: nat, n: nat)
    requires Inv(h) && NoTouch(h) && 0 < i < |h.ring| && 0 < n < h.size[h.ring[i]]
    ensures Carved(h, Cut(h, i, n), End(h, h.ring[i]) - n, n)
  {
    CutInv(h, i, n);
    var c := End(h, h.ring[i]) - n;
    assert c in h.live ==> Block(h, c);
    assert Block(h, h.ring[i]) && h.ring[i] !in h.live;
  }

  lemma StillThere(h: Heap, w: Heap, i: nat)
    requires 0 < i < |h.ring| && (w.ring == h.ring || w.ring == RemoveAt(h.ring, i))
    ensures h.ring[i-1] in w.ring
  {
    if w.ring == RemoveAt(h.ring, i) { assert w.ring[i-1] == h.ring[i-1]; }
  }

  lemma LinkTake(hdr: map<int, Header>, h: Heap, i: nat)
    requires Inv(h) && Linked(hdr, h) && 0 < i < |h.ring|
    ensures h.ring[i] in hdr && h.ring[i-1] in hdr
    ensures Linked(hdr[h.ring[i-1] := Header(hdr[h.ring[i]].ptr, hdr[h.ring[i-1]].size)], Take(h, i))
  {
    hide Chain, RemoveAt, Tiles;
    ChainAt(hdr, h.ring, i);
    ChainAt(hdr, h.ring, i - 1);
    var g, w := hdr[h.ring[i-1] := Header(hdr[h.ring[i]].ptr, hdr[h.ring[i-1]].size)], Take(h, i);
    ChainRemove(hdr, g, h.ring, i - 1);
    RemoveMembers(h.ring, i);
    assert Block(h, h.ring[i]);
    forall d | Block(w, d) || d == BASE ensures d in g && d in w.size && g[d].size == w.size[d] {
      assert Block(h, d) || d == BASE;
    }
  }

  lemma LinkCut(hdr: map<int, Header>, h: Heap, i: nat, n: nat)
    requires Inv(h) && NoTouch(h) && Linked(hdr, h) && 0 < i < |h.ring| && 0 < n < h.size[h.ring[i]]
    ensures h.ring[i] in hdr
    ensures var b, c := h.ring[i], End(h, h.ring[i]) - n;
      Linked(hdr[b := Header(hdr[b].ptr, hdr[b].size - n)][c := Header(0, n)], Cut(h, i, n))
  {
    hide Chain, Tiles;
    ChainAt(hdr, h.ring, i);
    CutInv(h, i, n);
    var b, c, w := h.ring[i], End(h, h.ring[i]) - n, Cut(h, i, n);
    assert Block(h, b);
    var g := hdr[b := Header(hdr[b].ptr, hdr[b].size - n)][c := Header(0, n)];
    forall k: nat | k < |h.ring| ensures LinkAt(g, h.ring, k) {
      ChainAt(hdr, h.ring, k);
      assert h.ring[k] in h.ring;
    }
    ChainAll(g, w.ring);
    forall d | Block(w, d) || d == BASE ensures d in g && d in w.size && g[d].size == w.size[d] {
      assert Block(h, d) || d == BASE || d == c;
    }
  }

  lemma AllocatedBy(h: Heap, u: Heap, w: Heap, b: int, n: nat, core: Link)
    requires Carved(u, w, b, n)
    requires core == Nil ==> u == h
    requires core.At? ==> Enlarged(h, u, core.a, CoreSize(n))
    ensures Allocated(h, w, b, n, core)
  {
  }
}
