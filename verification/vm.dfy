/**
  The page allocator of kalloc.c and the page table operations of vm.c.  Addresses
  are 32-bit numbers; `ok` is false where the kernel panics.
 */
module VirtualMemory {
  import opened Seqs
  import opened PageTables
  import opened PageCounts

  const PGSIZE: nat := 4096
  const KERNBASE: nat := USER * PGSIZE
  const PTE_W: nat := 2
  const PTE_U: nat := 4

  type Addr = x: int | 0 <= x < 0x1_0000_0000

  datatype MaybePage = NoPage | PageAt(p: nat)

  function RoundUp(sz: nat): nat {
    (sz + PGSIZE - 1) / PGSIZE * PGSIZE
  }

  class PageMemory {
    var mem: seq<Page>
    var free: seq<nat>
    ghost var own: map<nat, Role>
    ghost var dirs: set<nat>

    ghost function View(): Vm
      reads this
    {
      Vm(mem, free, own, dirs)
    }

    // ---- kalloc.c ----

    /** kinit1 and kinit2: freerange over all memory after the kernel. */
    constructor (m: seq<Page>)
      requires |m| == LAST
      ensures Inv(View()) && own == map[] && dirs == {} && forall p: nat :: p in free <==> FIRST <= p < LAST
    {
      mem, free, own, dirs := m, [], map[], {};
      new;
      var p: nat := FIRST;
      while p < LAST
        invariant FIRST <= p && (p <= LAST || p == FIRST) && |mem| == LAST && own == map[] && dirs == {}
        invariant NoDup(free) && forall x: nat :: x in free <==> FIRST <= x < p
      {
        ConsNoDup(p, free);
        mem, free := mem[p := JunkPage()], [p] + free;
        p := p + 1;
      }
    }

    method Kalloc() returns (r: MaybePage)
      requires Inv(View())
      modifies this`free, this`own
      ensures r == NoPage <==> old(free) == []
      ensures r == NoPage ==> View() == old(View())
      ensures r.PageAt? ==> old(free) != [] && r.p == old(free)[0] && View() == Take(old(View())) && Inv(View())
    {
      hide Inv;
      if free == [] { return NoPage; }
      TakeInv(View());
      r := PageAt(free[0]);
      own := own[free[0] := Lent];
      free := free[1..];
    }

    method Kfree(p: nat) returns (ok: bool)
      requires |mem| == LAST
      modifies this`mem, this`free, this`own
      ensures ok <==> FIRST <= p < LAST
      ensures ok ==> p < |old(mem)| && View() == Give(old(View()), p)
    {
      if p < FIRST || p >= LAST { return false; }
      mem := mem[p := JunkPage()];
      free := [p] + free;
      own := own - {p};
      return true;
    }

    // ---- page tables ----

    /** Whether there is (now) a page table for va; the entry is number va / PGSIZE % 1024 of that table. */
    method WalkPgdir(d: nat, va: Addr, alloc: bool) returns (found: bool)
      requires Inv(View()) && d in dirs
      modifies this`mem, this`free, this`own
      ensures Changed(old(View()), View(), d, 0, 0, {})
      ensures d < |old(mem)| == |mem| && (found <==> mem[d][va / PGSIZE / NENT].present)
      ensures old(mem)[d][va / PGSIZE / NENT].present || !alloc || !found ==> View() == old(View())
      ensures alloc && !found ==> free == []
      ensures found ==> Gained(old(View()), View(), d, va / PGSIZE, va / PGSIZE + 1)
    {
      hide Entry, Pool, Roles, Gained;
      ghost var s := View();
      NoChange(s, d);
      var i := va / PGSIZE / NENT;
      if mem[d][i].present {
        GainedOne(s, s, d, va / PGSIZE);
        return true;
      }
      if !alloc { return false; }
      var r := Kalloc();
      if r == NoPage { return false; }
      TableChanged(s, d, i, PTE_W + PTE_U);
      mem := mem[r.p := ZeroPage()];
      mem := mem[d := mem[d][i := Pte(true, r.p, PTE_W + PTE_U)]];
      own := own[r.p := Table(d, i)];
      FreeIsNotDir(s, d);
      GainedOne(s, View(), d, va / PGSIZE);
      return true;
    }

    /** One round of mappages' loop. */
    method MapOne(d: nat, a: Addr, page: nat, perm: nat) returns (ok: bool, done: bool)
      requires Inv(View()) && d in dirs && (a < KERNBASE ==> Has(own, page, Lent))
      modifies this`mem, this`free, this`own
      ensures !ok ==> d < |old(mem)| && Entry(old(mem), d, a / PGSIZE).present
      ensures ok && !done ==> View() == old(View()) && free == [] && d < |mem| && !mem[d][a / PGSIZE / NENT].present
      ensures ok && done ==> OneMapped(old(View()), View(), d, a / PGSIZE, page, perm)
      ensures ok && done ==> Gained(old(View()), View(), d, a / PGSIZE, a / PGSIZE + 1)
    {
      hide Entry, Pool, Roles, Trees, Gained;
      ghost var s := View();
      var v := a / PGSIZE;
      done := WalkPgdir(d, a, true);
      ghost var u := View();
      if !done { return true, false; }
      WalkedEntry(s, u, d, v);
      var t := mem[d][v / NENT].page;
      if mem[t][v % NENT].present { return false, false; }
      if v < USER {
        LentStays(s, u, d, page);
        UserChanged(u, d, v, page, perm);
      } else {
        KernelChanged(u, d, v, Pte(true, page, perm));
      }
      mem := mem[t := mem[t][v % NENT := Pte(true, page, perm)]];
      if v < USER { own := own[page := User(d, v)]; }
      OneMappedBy(s, u, View(), d, v, page, perm);
      TableIsNotDir(u, d, v);
      GainedBy(s, u, View(), d, v);
      return true, true;
    }

    method MapPages(d: nat, va: Addr, size: nat, pa: nat, perm: nat) returns (ok: bool, done: bool)
      requires Inv(View()) && d in dirs && 0 < size && va + size <= 0x1_0000_0000 && pa % PGSIZE == 0
      requires va >= KERNBASE || (va % PGSIZE == 0 && size == PGSIZE && Has(own, pa / PGSIZE, Lent))
      modifies this`mem, this`free, this`own
      ensures !ok ==> d < |old(mem)| && exists v: nat ::
        va / PGSIZE <= v <= (va + size - 1) / PGSIZE && Entry(old(mem), d, v).present
      ensures ok && done ==>
        RangeMapped(old(View()), View(), d, va / PGSIZE, (va + size - 1) / PGSIZE + 1 - va / PGSIZE, pa / PGSIZE, perm)
      ensures ok && !done ==> free == [] && (va < KERNBASE ==> View() == old(View()))
      ensures ok && done ==> Gained(old(View()), View(), d, va / PGSIZE, (va + size - 1) / PGSIZE + 1)
      ensures ok && !done ==> exists k: nat ::
        k < (va + size - 1) / PGSIZE + 1 - va / PGSIZE
          && RangeStopped(old(View()), View(), d, va / PGSIZE, k, pa / PGSIZE, perm)
    {
      hide Entry, Pool, Roles, Trees, RangeMapped, Gained;
      ghost var s, first, k: nat := View(), va / PGSIZE, 0;
      RangeStart(s, d, first, pa / PGSIZE, perm);
      GainedNone(s, s, d, first);
      var a, last, p := va / PGSIZE * PGSIZE, (va + size - 1) / PGSIZE * PGSIZE, pa;
      while true
        invariant a == (first + k) * PGSIZE && a <= last && p == pa + k * PGSIZE
        invariant RangeMapped(s, View(), d, first, k, pa / PGSIZE, perm) && (k == 0 ==> View() == s)
        invariant Inv(View()) && d in dirs && (a < KERNBASE ==> k == 0 && Has(own, p / PGSIZE, Lent))
        invariant Gained(s, View(), d, first, first + k)
        decreases last - a
      {
        ghost var t := View();
        ok, done := MapOne(d, a, p / PGSIZE, perm);
        if !ok {
          RangeUnmapped(s, t, d, first, k, pa / PGSIZE, perm);
          return;
        }
        if !done {
          assert a / PGSIZE == first + k;
          assert RangeStopped(s, View(), d, first, k, pa / PGSIZE, perm);
          return;
        }
        RangeNext(s, t, View(), d, first, k, pa / PGSIZE, perm);
        GainedNext(s, t, View(), d, first, first + k);
        k := k + 1;
        if a == last { break; }
        a, p := a + PGSIZE, p + PGSIZE;
      }
      return true, true;
    }

    /** The inner part of deallocuvm; x is the page table. */
    method UnmapOne(d: nat, v: nat, x: nat) returns (ok: bool)
      requires Inv(View()) && d in dirs && d < |mem| && v < USER && Entry(mem, d, v).present
        && mem[d][v / NENT].page == x
      modifies this`mem, this`free, this`own
      ensures ok && Changed(old(View()), View(), d, v, v + 1, {})
      ensures d < |mem| && !Entry(mem, d, v).present && own == old(own) - {Entry(old(mem), d, v).page}
    {
      hide Entry, Roles, Trees;
      ghost var s := View();
      UnmapChanged(s, d, v);
      EntryThere(s, d, v);
      var p := mem[x][v % NENT].page;
      if p == 0 { return false; }
      ok := Kfree(p);
      if !ok { return; }
      mem := mem[x := mem[x][v % NENT := NoPte]];
      assert mem == Give(SetEntry(s, d, v, NoPte, s.own[p := Lent]), p).mem;
      assert own == s.own[p := Lent] - {p};
    }

    /** Unmaps and frees the pages from newsz up to oldsz; the jump over a missing page table misses none of them. */
    method DeallocUvm(d: nat, oldsz: nat, newsz: nat) returns (ok: bool, sz: nat)
      requires Inv(View()) && d in dirs && oldsz <= KERNBASE
      modifies this`mem, this`free, this`own
      ensures ok && sz == if newsz >= oldsz then oldsz else newsz
      ensures if newsz >= oldsz then View() == old(View())
              else Unmapped(old(View()), View(), d, RoundUp(newsz) / PGSIZE, RoundUp(oldsz) / PGSIZE)
    {
      hide Entry, Pool, Roles, Trees, Unmapped, Changed, RoundUp;
      if newsz >= oldsz { return true, oldsz; }
      sz := newsz;
      ghost var s, lo, hi := View(), RoundUp(newsz) / PGSIZE, RoundUp(oldsz) / PGSIZE;
      RoundedUp(newsz, oldsz);
      UnmapStart(s, d, lo);
      var a := RoundUp(newsz);
      while a < oldsz
        invariant a % PGSIZE == 0 && lo <= a / PGSIZE && lo <= hi
        invariant Unmapped(s, View(), d, lo, Min(a / PGSIZE, hi)) && Inv(View()) && d in dirs
        decreases KERNBASE - a
      {
        ghost var t := View();
        var c := a / PGSIZE;
        Pages(a, oldsz);
        var found := WalkPgdir(d, a, false);
        if !found {
          a := (a / PGSIZE / NENT + 1) * NENT * PGSIZE - PGSIZE;
          JumpTo(c, a);
          NoTable(t, d, c, Min(a / PGSIZE + 1, hi));
          UnmapSkip(s, t, d, lo, c, Min(a / PGSIZE + 1, hi));
        } else {
          EntryThere(t, d, c);
          var x := mem[d][c / NENT].page;
          if mem[x][c % NENT].present {
            ok := UnmapOne(d, c, x);
            if !ok { return; }
            UnmapNext(s, t, View(), d, lo, c);
          } else {
            UnmapSkip(s, t, d, lo, c, c + 1);
          }
        }
        StepPage(a);
        a := a + PGSIZE;
      }
      EndPage(a, oldsz);
      return true, newsz;
    }

    /** Gets a zeroed page and maps it at a; a page that could not be mapped is handed back in r. */
    method GrowOne(d: nat, a: Addr) returns (ok: bool, done: bool, r: MaybePage)
      requires Inv(View()) && d in dirs && d < |mem| && a % PGSIZE == 0 && a < KERNBASE
      modifies this`mem, this`free, this`own
      ensures ok <==> !Entry(old(mem), d, a / PGSIZE).present || old(free) == []
      ensures ok && Entry(old(mem), d, a / PGSIZE).present ==> !done && r == NoPage
      ensures ok && done ==>
        Grew(old(View()), View(), d, a / PGSIZE) && Gained(old(View()), View(), d, a / PGSIZE, a / PGSIZE + 1)
      ensures ok && !done ==> free == [] && match r
        case NoPage => View() == old(View())
        case PageAt(p) => p !in old(own) && Has(own, p, Lent) && Changed(old(View()), View(), d, 0, 0, {p})
                          && NoTableFor(old(View()), View(), d, a / PGSIZE)
    {
      hide Entry, Pool, Roles, Trees, RangeMapped, Gained, NoTableFor;
      ghost var s, v := View(), a / PGSIZE;
      r := Kalloc();
      if r == NoPage { return true, false, NoPage; }
      TakeChanged(s, d, ZeroPage());
      var p := r.p;
      mem := mem[p := ZeroPage()];
      ghost var u := View();
      OnePage(a);
      ok, done := MapPages(d, a, PGSIZE, p * PGSIZE, PTE_W + PTE_U);
      SameEntryAt(s, u, d, v);
      MapOutcome(u, View(), d, v, p, PTE_W + PTE_U, ok, done);
      if !ok { return; }
      SameTables(s, u, d);
      if done {
        GrewBy(s, u, View(), d, v, p);
        GainedFrom(s, u, View(), d, v);
      } else {
        StoppedAtOnce(s, u, d, v, p, PTE_W + PTE_U);
      }
    }

    /** Where pages are mapped in the range already, it panics on the first unless it runs out of memory before. */
    method AllocUvm(d: nat, oldsz: nat, newsz: nat) returns (ok: bool, sz: nat)
      requires Inv(View()) && d in dirs && oldsz < KERNBASE
      modifies this`mem, this`free, this`own
      ensures ok ==> sz == newsz || sz == oldsz || sz == 0
      ensures newsz < KERNBASE && newsz < oldsz ==> ok && sz == oldsz && View() == old(View())
      ensures newsz >= KERNBASE ==> ok && sz == 0 && View() == old(View())
      ensures oldsz <= newsz < KERNBASE ==>
        var lo, hi := RoundUp(oldsz) / PGSIZE, RoundUp(newsz) / PGSIZE;
        && d < |old(mem)|
        && if !Clear(old(View()), d, lo, hi) then !ok || (sz == 0 && Inv(View()))
           else if |old(free)| >= GrowNeeds(old(View()), d, lo, hi)
           then ok && sz == newsz && Growing(old(View()), View(), d, lo, hi)
           else ok && sz == 0 && Changed(old(View()), View(), d, 0, 0, {})
    {
      hide Entry, Pool, Roles, Trees, Changed, Unmapped, Growing, Grew, Gained, GrowNeeds, NoTableFor, Clear;
      if newsz >= KERNBASE { return true, 0; }
      if newsz < oldsz { return true, oldsz; }
      ghost var s, lo, hi := View(), RoundUp(oldsz) / PGSIZE, RoundUp(newsz) / PGSIZE;
      GrowStart(s, d, lo);
      GainedNone(s, s, d, lo);
      ClearStart(s, d, lo);
      var a := RoundUp(oldsz);
      while a < newsz
        invariant a % PGSIZE == 0 && lo <= a / PGSIZE <= hi && Inv(View()) && d in dirs && d < |mem| == |s.mem|
        invariant Growing(s, View(), d, lo, a / PGSIZE) && Gained(s, View(), d, lo, a / PGSIZE)
        invariant Clear(s, d, lo, a / PGSIZE)
        decreases newsz - a
      {
        ghost var t, c := View(), a / PGSIZE;
        Pages(a, newsz);
        ClearNext(s, t, d, lo, c, hi);
        var done, r;
        ok, done, r := GrowOne(d, a);
        if !ok { return false, 0; }
        if !done {
          ghost var u := View();
          GrowFailed(s, t, u, d, lo, c, r);
          if Clear(s, d, lo, hi) { GrowTooMuch(s, t, u, d, lo, c, hi, r); }
          var shrunk;
          ok, shrunk := DeallocUvm(d, newsz, oldsz);
          GrowUndone(s, u, View(), d, lo, c, hi, r);
          if r.PageAt? {
            GrowReturned(s, View(), d, lo, hi, r.p);
            ok := Kfree(r.p);
          }
          return ok, 0;
        }
        GrowNext(s, t, View(), d, lo, c);
        GainedNext(s, t, View(), d, lo, c);
        a := a + PGSIZE;
      }
      EndPage(a, newsz);
      GrowEnough(s, View(), d, lo, hi);
      return true, newsz;
    }

    /** Every page of the space goes back to the free list, once, and no other page moves. */
    method FreeVm(d: nat) returns (ok: bool)
      requires Inv(View()) && d in dirs
      modifies this
      ensures ok && Freed(old(View()), View(), d)
    {
      hide Entry, Pool, Roles, Trees, Unmapped, Returning, Freed, Retire, RoundUp;
      ghost var s := View();
      var sz;
      ok, sz := DeallocUvm(d, KERNBASE, 0);
      ghost var t := View();
      EmptySpace(s, t, d);
      own, dirs := Retire(t, d).own, dirs - {d};
      ReturnStart(t, d);
      assert View() == Retire(t, d) by { RetireView(t, d); }
      var i := 0;
      while i < NENT
        invariant 0 <= i <= NENT && Returning(t, View(), d, i)
      {
        ReturnNext(t, View(), d, i);
        ReturningDir(t, View(), d, i);
        if mem[d][i].present {
          ok := Kfree(mem[d][i].page);
          if !ok { return; }
        }
        i := i + 1;
      }
      ReturningDir(t, View(), d, i);
      ReturnEnd(t, View(), d);
      ok := Kfree(d);
      FreedBy(s, t, View(), d);
    }

    /** A new address space with the kernel's mappings and no user pages; on failure everything is back. */
    method SetupKvm() returns (ok: bool, r: MaybePage)
      requires Inv(View())
      modifies this
      ensures ok
      ensures r.PageAt? ==> Born(old(View()), View(), r.p) && KernelOnly(View(), r.p)
      ensures r == NoPage ==> Restored(old(View()), View())
      ensures r == NoPage <==> |old(free)| < KVMPAGES
      ensures r.PageAt? ==> r.p < |mem| && Tables(View(), r.p) == KernelTables(4)
    {
      hide Entry, Pool, Roles, Trees, Changed, Born, RangeStopped, RangeMapped, Restored, KernelUpto, Tables, Gained,
        KernelTables;
      ghost var s := View();
      RestoredSame(s);
      r := Kalloc();
      if r == NoPage { return true, NoPage; }
      var d := r.p;
      BornStart(s);
      mem := mem[d := ZeroPage()];
      own, dirs := own[d := Dir], dirs + {d};
      NoTables(View(), d);
      if KERNBASE + PHYSTOP > DEVSPACE { return false, NoPage; }
      var k := 0;
      while k < 4
        invariant 0 <= k <= 4 && Born(s, View(), d) && KernelUpto(View(), d, k) && Inv(View()) && d in dirs
        invariant d < |mem| && Tables(View(), d) == KernelTables(k)
      {
        ghost var t := View();
        KmapFits(k);
        var m := KMAP()[k];
        var done;
        ok, done := MapPages(d, m.virt, Size(m), m.start, m.perm);
        KernelFree(t, d, k);
        if !ok { return false, NoPage; }
        if !done {
          BornPart(s, t, View(), d, k);
          ghost var u := View();
          KernelTooMuch(s, t, u, d, k);
          ok := FreeVm(d);
          UnBorn(s, u, View(), d);
          return ok, NoPage;
        }
        KernelNext(s, t, View(), d, k);
        KernelTablesNext(t, View(), d, k);
        k := k + 1;
      }
      KernelEnough(s, View(), d);
      return true, PageAt(d);
    }

    /**
      A copy of the user part of src up to sz.  When a page table for the copy
      cannot be had, the page just filled is not given back: it is `leaked`.
     */
    method CopyUvm(src: nat, sz: nat) returns (ok: bool, r: MaybePage, ghost leaked: MaybePage)
      requires Inv(View()) && src in dirs && sz <= KERNBASE
      modifies this
      ensures !ok ==> src < |old(mem)| && !AllMapped(old(View()), src, RoundUp(sz) / PGSIZE)
      ensures ok && r.PageAt? ==>
        Born(old(View()), View(), r.p) && Copied(old(View()), View(), src, r.p, RoundUp(sz) / PGSIZE)
      ensures ok && r == NoPage ==> Lost(old(View()), View(), leaked)
      ensures ok ==> (r.PageAt? <==> |old(free)| >= CopyNeeds(RoundUp(sz) / PGSIZE))
      ensures ok && r == NoPage ==> (leaked.PageAt? <==> LeavesOne(|old(free)|))
    {
      hide Entry, Pool, Roles, Trees, Changed, Born, Restored, Copied, Lost, RoundUp, KernelOnly;
      hide Gained, Tables, KernelTables, TablesOf, NoTableFor, LeavesOne;
      leaked := NoPage;
      ghost var s := View();
      ok, r := SetupKvm();
      if r == NoPage {
        LostNothing(s, View());
        NothingLeft(|s.free|);
        return;
      }
      var d := r.p;
      TablesOfNext(0, 0);
      CopyStart(s, View(), src, d);
      CopySize(sz);
      var i := 0;
      while i < sz
        invariant i % PGSIZE == 0 && i / PGSIZE <= RoundUp(sz) / PGSIZE <= USER && Born(s, View(), d) && Inv(View())
        invariant src in dirs && d in dirs && Copied(s, View(), src, d, i / PGSIZE)
        invariant d < |mem| && Tables(View(), d) == KernelTables(4) + TablesOf(0, i / PGSIZE)
        decreases KERNBASE + PGSIZE - i
      {
        ghost var t := View();
        var c := i / PGSIZE;
        Pages(i, sz);
        BornEntry(s, t, d, src, c);
        var found := WalkPgdir(src, i, false);
        if !found {
          NoTable(t, src, c, c + 1);
          return false, NoPage, NoPage;
        }
        EntryThere(t, src, c);
        var e := mem[mem[src][c / NENT].page][c % NENT];
        if !e.present { return false, NoPage, NoPage; }
        CopyReady(s, t, src, d, c);
        var q, done;
        ok, q, done := CopyOne(d, i, e);
        if !done {
          ghost var u := View();
          ok := FreeVm(d);
          leaked := q;
          CopyTooMuch(s, t, u, src, d, c, RoundUp(sz) / PGSIZE, q);
          LostBy(s, t, u, View(), d, q);
          return ok, NoPage, leaked;
        }
        CopyNext(s, t, View(), src, d, c);
        CopyTables(t, View(), d, c);
        StepPage(i);
        i := i + PGSIZE;
      }
      EndPage(i, sz);
      CopyEnough(s, View(), src, d, RoundUp(sz) / PGSIZE);
      return true, PageAt(d), NoPage;
    }

    /** The body of copyuvm's loop: a copy of the page of e is mapped at i in d. */
    method CopyOne(d: nat, i: Addr, e: Pte) returns (ok: bool, q: MaybePage, done: bool)
      requires Inv(View()) && d in dirs && d < |mem| && i % PGSIZE == 0 && i < KERNBASE
        && !Entry(mem, d, i / PGSIZE).present
      requires e.page < |mem|
      modifies this`mem, this`free, this`own
      ensures ok && Inv(View()) && d in dirs
      ensures done ==>
        CopiedOne(old(View()), View(), d, i / PGSIZE, e) && Gained(old(View()), View(), d, i / PGSIZE, i / PGSIZE + 1)
      ensures !done ==> free == [] && match q
        case NoPage => View() == old(View())
        case PageAt(p) => p !in old(own) && Has(own, p, Lent) && Changed(old(View()), View(), d, 0, 0, {p})
                          && NoTableFor(old(View()), View(), d, i / PGSIZE)
    {
      hide Entry, Pool, Roles, Trees, RangeMapped, Gained, NoTableFor;
      ghost var t, v := View(), i / PGSIZE;
      q := Kalloc();
      if q == NoPage { return true, NoPage, false; }
      TakeChanged(t, d, mem[e.page]);
      var p := q.p;
      mem := mem[p := mem[e.page]];
      ghost var u := View();
      OnePage(i);
      ok, done := MapPages(d, i, PGSIZE, p * PGSIZE, e.flags);
      SameEntryAt(t, u, d, v);
      if !ok { return; }
      SameTables(t, u, d);
      if done {
        CopiedBy(t, u, View(), d, v, p, e);
        GainedFrom(t, u, View(), d, v);
      } else {
        StoppedAtOnce(t, u, d, v, p, e.flags);
      }
    }
  }

  lemma NoChange(s: Vm, d: nat)
    requires Inv(s) && d in s.dirs
    ensures Changed(s, s, d, 0, 0, {}) && d < |s.mem|
  {
    hide Entry;
  }

  /** The page in transit when user page v gets it. */
  function Moved(v: nat, page: nat): set<nat> {
    if v < USER then {page} else {}
  }

  ghost predicate OneMapped(s: Vm, t: Vm, d: nat, v: nat, page: nat, perm: nat) {
    && v < VPAGES && Changed(s, t, d, v, v + 1, Moved(v, page)) && d < |t.mem|
      && Entry(t.mem, d, v) == Pte(true, page, perm)
    && d < |s.mem| && !Entry(s.mem, d, v).present
    && (v < USER ==> Has(t.own, page, User(d, v)) && page < |s.mem| == |t.mem| && t.mem[page] == s.mem[page])
  }

  /** k virtual pages of d from first on are mapped to consecutive pages; otherwise d is as in s. */
  ghost predicate RangeMapped(s: Vm, t: Vm, d: nat, first: nat, k: nat, page: nat, perm: nat) {
    && first + k <= VPAGES && d < |s.mem| == |t.mem|
    && Changed(s, t, d, first, first + k, if k > 0 then Moved(first, page) else {})
    && (forall v: nat :: first <= v < first + k ==> Entry(t.mem, d, v) == Pte(true, page + (v - first), perm))
    && (forall v: nat :: first <= v < first + k ==> !Entry(s.mem, d, v).present)
    && (k > 0 && first < USER ==> Has(t.own, page, User(d, first)) && page < |s.mem| && t.mem[page] == s.mem[page])
  }

  /** mappages stopped for want of a table after k pages. */
  ghost predicate RangeStopped(s: Vm, t: Vm, d: nat, first: nat, k: nat, page: nat, perm: nat) {
    && RangeMapped(s, t, d, first, k, page, perm) && Gained(s, t, d, first, first + k)
    && first + k < VPAGES && !t.mem[d][(first + k) / NENT].present
  }

  lemma FreeIsNotDir(s: Vm, d: nat)
    requires Inv(s) && d in s.dirs && s.free != []
    ensures s.free[0] != d
  {
    hide Entry;
    assert Has(s.own, d, Dir) && s.free[0] in s.free;
  }

  lemma TableIsNotDir(u: Vm, d: nat, v: nat)
    requires Inv(u) && d in u.dirs && d < |u.mem| && v < VPAGES && u.mem[d][v / NENT].present
    ensures u.mem[d][v / NENT].page != d
  {
    hide Entry;
    assert Has(u.own, u.mem[d][v / NENT].page, Table(d, v / NENT)) && Has(u.own, d, Dir);
  }

  /** Tables depend on the directory's own page only. */
  lemma GainedBy(s: Vm, u: Vm, t: Vm, d: nat, v: nat)
    requires Gained(s, u, d, v, v + 1) && |t.mem| == |u.mem| && t.mem[d] == u.mem[d]
    ensures Gained(s, t, d, v, v + 1)
  {
    assert Tables(t, d) == Tables(u, d);
  }

  lemma WalkedEntry(s: Vm, u: Vm, d: nat, v: nat)
    requires Changed(s, u, d, 0, 0, {}) && v < VPAGES && d < |s.mem| == |u.mem| && u.mem[d][v / NENT].present
    ensures TableOf(u.mem, d, v) < |u.mem| && Entry(u.mem, d, v) == u.mem[TableOf(u.mem, d, v)][v % NENT]
    ensures Entry(u.mem, d, v).present ==> Entry(s.mem, d, v).present
  {
    assert Has(u.own, u.mem[d][v / NENT].page, Table(d, v / NENT)) && RoleRight(u, u.mem[d][v / NENT].page);
  }

  lemma LentStays(s: Vm, u: Vm, d: nat, page: nat)
    requires Changed(s, u, d, 0, 0, {}) && Has(s.own, page, Lent)
    ensures Has(u.own, page, Lent) && page < |s.mem| == |u.mem| && u.mem[page] == s.mem[page]
  {
    hide Entry;
    assert RoleRight(s, page);
  }

  lemma OneMappedBy(s: Vm, u: Vm, t: Vm, d: nat, v: nat, page: nat, perm: nat)
    requires Changed(s, u, d, 0, 0, {}) && v < VPAGES && d < |s.mem| == |u.mem| && !Entry(u.mem, d, v).present
    requires Changed(u, t, d, v, v + 1, Moved(v, page)) && d < |t.mem| && Entry(t.mem, d, v) == Pte(true, page, perm)
    requires v < USER ==>
      Has(t.own, page, User(d, v)) && page < |s.mem| == |t.mem| && t.mem[page] == u.mem[page] == s.mem[page]
    ensures OneMapped(s, t, d, v, page, perm)
  {
    hide Entry, Pool, Roles, Trees;
    ChangedWider(s, u, d, 0, 0, {}, v, v + 1, Moved(v, page));
    ChangedTrans(s, u, t, d, v, v + 1, Moved(v, page));
  }

  lemma RangeStart(s: Vm, d: nat, first: nat, page: nat, perm: nat)
    requires Inv(s) && d in s.dirs && first <= VPAGES
    ensures RangeMapped(s, s, d, first, 0, page, perm)
  {
    NoChange(s, d);
    ChangedWider(s, s, d, 0, 0, {}, first, first, {});
  }

  lemma RangeUnmapped(s: Vm, t: Vm, d: nat, first: nat, k: nat, page: nat, perm: nat)
    requires RangeMapped(s, t, d, first, k, page, perm) && first + k < VPAGES && Entry(t.mem, d, first + k).present
    ensures Entry(s.mem, d, first + k).present
  {
    hide Entry;
  }

  lemma RangeNext(s: Vm, t: Vm, u: Vm, d: nat, first: nat, k: nat, page: nat, perm: nat)
    requires RangeMapped(s, t, d, first, k, page, perm) && OneMapped(t, u, d, first + k, page + k, perm)
    requires first < USER ==> k == 0 && Has(s.own, page, Lent)
    ensures RangeMapped(s, u, d, first, k + 1, page, perm)
  {
    hide Entry, Inv, Kept, MapKept;
    var x := Moved(first, page);
    ChangedWider(s, t, d, first, first + k, if k > 0 then x else {}, first, first + k + 1, x);
    ChangedWider(t, u, d, first + k, first + k + 1, Moved(first + k, page + k), first, first + k + 1, x);
    ChangedTrans(s, t, u, d, first, first + k + 1, x);
    RangeSame(t, u, d, first, k);
    NotYet(s, t, d, first, k);
    if first < USER { LentContent(s, t, d, first, page); }
  }

  lemma NotYet(s: Vm, t: Vm, d: nat, first: nat, k: nat)
    requires MapKept(s, t, d, first, first + k) && first + k < VPAGES && !Entry(t.mem, d, first + k).present
    ensures !Entry(s.mem, d, first + k).present
  {
    hide Entry;
  }

  lemma RangeSame(t: Vm, u: Vm, d: nat, first: nat, k: nat)
    requires MapKept(t, u, d, first + k, first + k + 1) && first + k < VPAGES
    ensures |u.mem| == |t.mem|
    ensures forall v: nat :: first <= v < first + k && Entry(t.mem, d, v).present ==>
      Entry(u.mem, d, v) == Entry(t.mem, d, v)
  {
    hide Entry;
  }

  lemma LentContent(s: Vm, t: Vm, d: nat, v: nat, page: nat)
    requires Changed(s, t, d, v, v, {}) && Has(s.own, page, Lent)
    ensures page < |s.mem| == |t.mem| && t.mem[page] == s.mem[page]
  {
    hide Entry;
    assert RoleRight(s, page);
  }

  // ---- deallocuvm ----

  function Min(a: nat, b: nat): nat {
    if a < b then a else b
  }

  /** The uses without the user pages lo to hi - 1 of d. */
  ghost function Less(own: map<nat, Role>, d: nat, lo: nat, hi: nat): map<nat, Role> {
    map p | p in own && !(own[p].User? && own[p].d == d && lo <= own[p].v < hi) :: own[p]
  }

  /** Virtual pages lo to hi - 1 of d are unmapped, their pages out of use; all else is as before. */
  ghost predicate Unmapped(s: Vm, t: Vm, d: nat, lo: nat, hi: nat) {
    && hi <= USER && Changed(s, t, d, lo, hi, {}) && d < |t.mem| && t.own == Less(s.own, d, lo, hi)
    && forall v: nat :: lo <= v < hi ==> !Entry(t.mem, d, v).present
  }

  lemma UnmapStart(s: Vm, d: nat, lo: nat)
    requires Inv(s) && d in s.dirs && lo <= USER
    ensures Unmapped(s, s, d, lo, lo)
  {
    hide Entry, Pool, Roles;
    NoChange(s, d);
    ChangedWider(s, s, d, 0, 0, {}, lo, lo, {});
    assert Less(s.own, d, lo, lo) == s.own;
  }

  lemma RoundedUp(newsz: nat, oldsz: nat)
    requires newsz < oldsz <= KERNBASE
    ensures RoundUp(newsz) % PGSIZE == 0 && RoundUp(newsz) / PGSIZE <= RoundUp(oldsz) / PGSIZE <= USER
  {
  }

  lemma StepPage(a: nat)
    requires a % PGSIZE == 0
    ensures (a + PGSIZE) % PGSIZE == 0 && (a + PGSIZE) / PGSIZE == a / PGSIZE + 1
  {
  }

  lemma EndPage(a: nat, oldsz: nat)
    requires a % PGSIZE == 0 && a >= oldsz
    ensures a / PGSIZE >= RoundUp(oldsz) / PGSIZE
  {
  }

  lemma Pages(a: nat, oldsz: nat)
    requires a % PGSIZE == 0 && a < oldsz <= KERNBASE
    ensures a / PGSIZE < RoundUp(oldsz) / PGSIZE <= USER
  {
  }

  lemma JumpTo(c: nat, a: nat)
    requires a == (c / NENT + 1) * NENT * PGSIZE - PGSIZE
    ensures a / PGSIZE + 1 == (c / NENT + 1) * NENT && a % PGSIZE == 0 && c <= a / PGSIZE
  {
    var m := (c / NENT + 1) * NENT;
    assert a == (m - 1) * PGSIZE;
  }

  /** Without a page table none of its pages is mapped. */
  lemma NoTable(t: Vm, d: nat, c: nat, c': nat)
    requires d < |t.mem| && c < VPAGES && c' <= VPAGES && c' <= (c / NENT + 1) * NENT && !t.mem[d][c / NENT].present
    ensures forall v: nat :: c <= v < c' ==> !Entry(t.mem, d, v).present
  {
    forall v: nat | c <= v < c' ensures !Entry(t.mem, d, v).present {
      assert v / NENT == c / NENT;
    }
  }

  lemma EntryThere(t: Vm, d: nat, v: nat)
    requires Inv(t) && d in t.dirs && v < VPAGES && d < |t.mem| && t.mem[d][v / NENT].present
    ensures TableOf(t.mem, d, v) < |t.mem| && Entry(t.mem, d, v) == t.mem[TableOf(t.mem, d, v)][v % NENT]
  {
    assert Has(t.own, t.mem[d][v / NENT].page, Table(d, v / NENT)) && RoleRight(t, t.mem[d][v / NENT].page);
  }

  /** A stretch without present entries. */
  lemma UnmapSkip(s: Vm, t: Vm, d: nat, lo: nat, c: nat, c': nat)
    requires Unmapped(s, t, d, lo, c) && lo <= c <= c' <= USER
    requires forall v: nat :: c <= v < c' ==> !Entry(t.mem, d, v).present
    ensures Unmapped(s, t, d, lo, c')
  {
    hide Entry;
    ChangedWider(s, t, d, lo, c, {}, lo, c', {});
    forall p: nat | p in t.own ensures !(t.own[p].User? && t.own[p].d == d && c <= t.own[p].v < c') {
      assert RoleRight(t, p);
    }
    assert Less(s.own, d, lo, c') == t.own;
  }

  lemma UnmapNext(s: Vm, t: Vm, u: Vm, d: nat, lo: nat, c: nat)
    requires Unmapped(s, t, d, lo, c) && lo <= c < USER && Changed(t, u, d, c, c + 1, {}) && d < |u.mem|
    requires Entry(t.mem, d, c).present && !Entry(u.mem, d, c).present && u.own == t.own - {Entry(t.mem, d, c).page}
    ensures Unmapped(s, u, d, lo, c + 1) && Inv(u) && d in u.dirs
  {
    hide Entry, Inv, Kept;
    ChangedWider(s, t, d, lo, c, {}, lo, c + 1, {});
    ChangedWider(t, u, d, c, c + 1, {}, lo, c + 1, {});
    ChangedTrans(s, t, u, d, lo, c + 1, {});
    OnlyHolder(t, d, c);
    assert u.own == Less(s.own, d, lo, c + 1);
  }

  lemma OnlyHolder(t: Vm, d: nat, c: nat)
    requires Inv(t) && d in t.dirs && d < |t.mem| && c < USER && Entry(t.mem, d, c).present
    ensures Has(t.own, Entry(t.mem, d, c).page, User(d, c))
    ensures forall q: nat :: q in t.own && t.own[q] == User(d, c) ==> q == Entry(t.mem, d, c).page
  {
    hide Entry;
    forall q: nat | q in t.own && t.own[q] == User(d, c)
      ensures q == Entry(t.mem, d, c).page { assert RoleRight(t, q); }
  }

  // ---- allocuvm ----

  /** Nothing is mapped from virtual page lo to hi - 1. */
  ghost predicate Clear(s: Vm, d: nat, lo: nat, hi: nat) {
    Inv(s) && d in s.dirs && d < |s.mem| && hi <= USER && forall v: nat :: lo <= v < hi ==> !Entry(s.mem, d, v).present
  }

  /** v is mapped to a zeroed page for the user. */
  ghost predicate FreshAt(t: Vm, d: nat, v: nat)
    requires d < |t.mem| && v < VPAGES
  {
    var e := Entry(t.mem, d, v);
    e.present && e.flags == PTE_W + PTE_U && e.page < |t.mem| && t.mem[e.page] == ZeroPage()
  }

  ghost predicate Grew(s: Vm, t: Vm, d: nat, v: nat) {
    v < USER && Changed(s, t, d, v, v + 1, {}) && d < |t.mem| && FreshAt(t, d, v)
  }

  ghost predicate Growing(s: Vm, t: Vm, d: nat, lo: nat, c: nat) {
    && c <= USER && Changed(s, t, d, lo, c, {}) && d < |t.mem|
    && forall v: nat :: lo <= v < c ==> FreshAt(t, d, v)
  }

  lemma OnePage(a: nat)
    requires a % PGSIZE == 0
    ensures (a + PGSIZE - 1) / PGSIZE == a / PGSIZE
  {
  }

  /** A page that was free before and is d's or free now is not in transit any more. */
  lemma DropTransit(s: Vm, t: Vm, d: nat, lo: nat, hi: nat, p: nat)
    requires Changed(s, t, d, lo, hi, {p}) && p !in s.own && (p !in t.own || OfSpace(p, t.own[p], d))
    ensures Changed(s, t, d, lo, hi, {})
  {
    hide Inv, Entry;
  }

  lemma SameEntryAt(s: Vm, u: Vm, d: nat, v: nat)
    requires Inv(s) && d in s.dirs && d < |s.mem| && SameEntries(s, u) && v < USER
    ensures d < |u.mem| && Entry(u.mem, d, v) == Entry(s.mem, d, v)
  {
    hide Entry;
  }

  /** mappages of a single page panics exactly if it is mapped. */
  lemma MapOutcome(u: Vm, t: Vm, d: nat, v: nat, page: nat, perm: nat, ok: bool, done: bool)
    requires d < |u.mem| && v < USER
    requires !ok ==> exists w: nat :: v <= w <= v && Entry(u.mem, d, w).present
    requires ok && done ==> RangeMapped(u, t, d, v, 1, page, perm)
    requires ok && !done ==> t == u && exists k: nat :: k < 1 && RangeStopped(u, t, d, v, k, page, perm)
    ensures ok <==> !Entry(u.mem, d, v).present
  {
    hide Inv, Changed;
  }

  /** Same tables as before, and none for page v. */
  ghost predicate NoTableFor(s: Vm, u: Vm, d: nat, v: nat) {
    d < |s.mem| == |u.mem| && Tables(u, d) == Tables(s, d) && v / NENT !in Tables(u, d)
  }

  lemma SameTables(s: Vm, u: Vm, d: nat)
    requires SameEntries(s, u) && d in s.dirs && d < |s.mem|
    ensures d < |u.mem| && Tables(u, d) == Tables(s, d)
  {
    hide Entry;
  }

  lemma GainedFrom(s: Vm, u: Vm, t: Vm, d: nat, v: nat)
    requires d < |s.mem| == |u.mem| && Tables(u, d) == Tables(s, d) && Gained(u, t, d, v, v + 1)
    ensures Gained(s, t, d, v, v + 1)
  {
  }

  lemma StoppedAtOnce(s: Vm, u: Vm, d: nat, v: nat, page: nat, perm: nat)
    requires d < |s.mem| == |u.mem| && Tables(u, d) == Tables(s, d)
    requires exists k: nat :: k < 1 && RangeStopped(u, u, d, v, k, page, perm)
    ensures NoTableFor(s, u, d, v)
  {
  }

  lemma GrewBy(s: Vm, u: Vm, t: Vm, d: nat, v: nat, p: nat)
    requires Changed(s, u, d, 0, 0, {p}) && RangeMapped(u, t, d, v, 1, p, PTE_W + PTE_U) && v < USER
    requires p !in s.own && p < |u.mem| && u.mem[p] == ZeroPage()
    ensures Grew(s, t, d, v)
  {
    hide Entry, Inv;
    ChangedWider(s, u, d, 0, 0, {p}, v, v + 1, {p});
    ChangedTrans(s, u, t, d, v, v + 1, {p});
    DropTransit(s, t, d, v, v + 1, p);
  }

  lemma GrowStart(s: Vm, d: nat, lo: nat)
    requires Inv(s) && d in s.dirs && lo <= USER
    ensures Growing(s, s, d, lo, lo)
  {
    NoChange(s, d);
    ChangedWider(s, s, d, 0, 0, {}, lo, lo, {});
  }

  lemma ClearStart(s: Vm, d: nat, lo: nat)
    requires Inv(s) && d in s.dirs && lo <= USER
    ensures d < |s.mem| && Clear(s, d, lo, lo)
  {
    hide Entry;
  }

  /** The next page of a clear range is mapped now exactly if it was at the start. */
  lemma ClearNext(s: Vm, t: Vm, d: nat, lo: nat, c: nat, hi: nat)
    requires Clear(s, d, lo, c) && Growing(s, t, d, lo, c) && lo <= c < hi <= USER
    ensures d < |t.mem| && Entry(t.mem, d, c).present == Entry(s.mem, d, c).present
    ensures !Entry(s.mem, d, c).present ==> Clear(s, d, lo, c + 1)
    ensures Entry(s.mem, d, c).present ==> !Clear(s, d, lo, hi)
  {
    hide Entry, Inv;
  }

  lemma GrowNext(s: Vm, t: Vm, u: Vm, d: nat, lo: nat, c: nat)
    requires Growing(s, t, d, lo, c) && Grew(t, u, d, c) && lo <= c
    ensures Growing(s, u, d, lo, c + 1) && Inv(u) && d in u.dirs
  {
    hide Entry, Inv, Kept, MapKept, FreshAt;
    ChangedWider(s, t, d, lo, c, {}, lo, c + 1, {});
    ChangedWider(t, u, d, c, c + 1, {}, lo, c + 1, {});
    ChangedTrans(s, t, u, d, lo, c + 1, {});
    forall v: nat | lo <= v < c ensures FreshAt(u, d, v) { FreshStays(t, u, d, c, v); }
  }

  lemma FreshStays(t: Vm, u: Vm, d: nat, c: nat, v: nat)
    requires Changed(t, u, d, c, c + 1, {}) && d < |t.mem| && d < |u.mem| && v < c <= USER && FreshAt(t, d, v)
    ensures FreshAt(u, d, v)
  {
    hide Entry;
    assert Has(t.own, Entry(t.mem, d, v).page, User(d, v));
  }

  function Transit(r: MaybePage): set<nat> {
    if r.PageAt? then {r.p} else {}
  }

  lemma GrowFailed(s: Vm, t: Vm, u: Vm, d: nat, lo: nat, c: nat, r: MaybePage)
    requires Growing(s, t, d, lo, c) && lo <= c && Clear(s, d, lo, c)
    requires r == NoPage ==> u == t
    requires r.PageAt? ==> r.p !in t.own && Has(u.own, r.p, Lent) && Changed(t, u, d, 0, 0, {r.p})
    ensures Inv(u) && d in u.dirs && Changed(s, u, d, lo, c, Transit(r)) && (r.PageAt? ==> r.p !in s.own)
  {
    hide Entry, Inv;
    if r.PageAt? {
      ChangedWider(s, t, d, lo, c, {}, lo, c, {r.p});
      ChangedWider(t, u, d, 0, 0, {r.p}, lo, c, {r.p});
      ChangedTrans(s, t, u, d, lo, c, {r.p});
      if r.p in s.own { NotUser(s, d, lo, c, r.p); }
    }
  }

  lemma NotUser(s: Vm, d: nat, lo: nat, hi: nat, p: nat)
    requires Clear(s, d, lo, hi) && p in s.own
    ensures !(s.own[p].User? && s.own[p].d == d && lo <= s.own[p].v < hi)
  {
    hide Entry;
    assert RoleRight(s, p);
  }

  /** After the deallocuvm of a failed allocuvm, the map of d is back if the range was clear. */
  lemma GrowUndone(s: Vm, u: Vm, w: Vm, d: nat, lo: nat, c: nat, hi: nat, r: MaybePage)
    requires Changed(s, u, d, lo, c, Transit(r)) && Unmapped(u, w, d, lo, hi) && lo <= c <= hi
    requires r.PageAt? ==> Has(u.own, r.p, Lent)
    ensures Inv(w) && d in w.dirs && Changed(s, w, d, lo, hi, Transit(r)) && (r.PageAt? ==> Has(w.own, r.p, Lent))
    ensures Clear(s, d, lo, hi) ==> Changed(s, w, d, 0, 0, Transit(r))
  {
    hide Entry, Inv;
    ChangedWider(s, u, d, lo, c, Transit(r), lo, hi, Transit(r));
    ChangedWider(u, w, d, lo, hi, {}, lo, hi, Transit(r));
    ChangedTrans(s, u, w, d, lo, hi, Transit(r));
    if Clear(s, d, lo, hi) {
      forall p: nat | p in s.own ensures !(s.own[p].User? && s.own[p].d == d && lo <= s.own[p].v < hi) {
        NotUser(s, d, lo, hi, p);
      }
    }
  }

  lemma GrowReturned(s: Vm, w: Vm, d: nat, lo: nat, hi: nat, p: nat)
    requires Changed(s, w, d, lo, hi, {p}) && p !in s.own && Has(w.own, p, Lent)
    ensures p < |w.mem| == LAST && FIRST <= p < LAST && Inv(Give(w, p))
    ensures Changed(s, w, d, 0, 0, {p}) ==> Changed(s, Give(w, p), d, 0, 0, {})
  {
    hide Entry, Inv;
    GiveChanged(w, d, p);
    if Changed(s, w, d, 0, 0, {p}) {
      ChangedTrans(s, w, Give(w, p), d, 0, 0, {p});
      DropTransit(s, Give(w, p), d, 0, 0, p);
    }
  }

  lemma GiveChanged(w: Vm, d: nat, p: nat)
    requires Inv(w) && d in w.dirs && Has(w.own, p, Lent)
    ensures p < |w.mem| == LAST && FIRST <= p < LAST && Inv(Give(w, p)) && Changed(w, Give(w, p), d, 0, 0, {p})
  {
    hide Entry;
    GiveInv(w, p);
    assert RoleRight(w, p);
  }

  // ---- how many pages growing takes ----

  /** A page for each virtual page from lo to hi - 1, and the tables that d lacks for them. */
  ghost function GrowNeeds(s: Vm, d: nat, lo: nat, hi: nat): int
    requires d < |s.mem|
  {
    hi - lo + |TablesOf(lo, hi) - Tables(s, d)|
  }

  lemma GrownUsers(s: Vm, t: Vm, u: Vm, d: nat, lo: nat, c: nat, x: set<nat>)
    requires Growing(s, t, d, lo, c) && lo <= c && Clear(s, d, lo, c) && Changed(t, u, d, 0, 0, x)
    ensures Users(u, d) == Users(s, d) + Span(lo, c) && Users(s, d) !! Span(lo, c)
  {
    hide Entry, Inv, Kept;
    forall v: nat | v < USER ensures v in Users(u, d) <==> v in Users(s, d) || lo <= v < c {
      assert v in Span(lo, c) ==> FreshAt(t, d, v);
    }
  }

  lemma OthersKept(s: Vm, u: Vm, d: nat, lo: nat, c: nat, r: MaybePage)
    requires Changed(s, u, d, lo, c, Transit(r)) && (r.PageAt? ==> r.p !in s.own && Has(u.own, r.p, Lent))
    ensures Others(u.own, d) == Others(s.own, d) + Transit(r) && Others(s.own, d) !! Transit(r)
  {
    hide Entry, Inv, MapKept;
  }

  /** From s to u the free pages went to tables, user pages and transit. */
  lemma GrowCount(s: Vm, t: Vm, u: Vm, d: nat, lo: nat, c: nat, r: MaybePage)
    requires Growing(s, t, d, lo, c) && lo <= c && Clear(s, d, lo, c) && Gained(s, u, d, lo, c)
    requires Changed(t, u, d, 0, 0, Transit(r)) && Changed(s, u, d, lo, c, Transit(r))
    requires r.PageAt? ==> r.p !in s.own && Has(u.own, r.p, Lent)
    ensures |s.free| == |u.free| + (c - lo) + |TablesOf(lo, c) - Tables(s, d)| + |Transit(r)|
  {
    hide Growing, Kept, MapKept, Pool, Trees, Roles, Others, Tables, Users, TablesOf, Span, Entry, Transit;
    GrownUsers(s, t, u, d, lo, c, Transit(r));
    OthersKept(s, u, d, lo, c, r);
    SpaceCount(s, d);
    SpaceCount(u, d);
    PoolCount(s, u);
    var a, b := Tables(s, d), TablesOf(lo, c);
    assert a + b == a + (b - a);
    Join(a, b - a);
    Join(Users(s, d), Span(lo, c));
    Join(Others(s.own, d), Transit(r));
  }

  lemma GrowEnough(s: Vm, t: Vm, d: nat, lo: nat, hi: nat)
    requires Growing(s, t, d, lo, hi) && Clear(s, d, lo, hi) && lo <= hi && Gained(s, t, d, lo, hi)
    ensures |s.free| >= GrowNeeds(s, d, lo, hi)
  {
    hide Entry, Inv, Kept, MapKept, Tables, TablesOf, Gained;
    NoChange(t, d);
    GrowCount(s, t, t, d, lo, hi, NoPage);
  }

  lemma GrowTooMuch(s: Vm, t: Vm, u: Vm, d: nat, lo: nat, c: nat, hi: nat, r: MaybePage)
    requires Growing(s, t, d, lo, c) && lo <= c < hi && Clear(s, d, lo, c) && Gained(s, t, d, lo, c) && u.free == []
    requires Changed(s, u, d, lo, c, Transit(r))
    requires r == NoPage ==> u == t
    requires r.PageAt? ==>
      r.p !in s.own && Has(u.own, r.p, Lent) && Changed(t, u, d, 0, 0, {r.p}) && NoTableFor(t, u, d, c)
    ensures d < |s.mem| && |s.free| < GrowNeeds(s, d, lo, hi)
  {
    hide Entry, Inv, Kept, MapKept, Tables, TablesOf, Growing;
    if r == NoPage { NoChange(t, d); }
    GrowCount(s, t, u, d, lo, c, r);
    TablesOfWithin(lo, c, hi);
    var a, b, e := TablesOf(lo, c) - Tables(s, d), TablesOf(lo, hi) - Tables(s, d), c / NENT;
    CardinalityMono(a, b);
    if r.PageAt? {
      assert e in b && e !in a;
      CardinalityMono(a, b - {e});
    }
  }

  // ---- freevm ----

  lemma EmptySpace(s: Vm, t: Vm, d: nat)
    requires Unmapped(s, t, d, RoundUp(0) / PGSIZE, RoundUp(KERNBASE) / PGSIZE)
    ensures Unmapped(s, t, d, 0, USER) && Inv(t) && d in t.dirs && d < |t.mem|
    ensures forall v: nat :: v < USER ==> !Entry(t.mem, d, v).present
  {
    hide Entry, Inv;
  }

  lemma RetireView(t: Vm, d: nat)
    ensures Retire(t, d).mem == t.mem && Retire(t, d).free == t.free && Retire(t, d).dirs == t.dirs - {d}
  {
  }

  lemma ReturningDir(s: Vm, t: Vm, d: nat, i: nat)
    requires Returning(s, t, d, i)
    ensures d < |t.mem| == |s.mem| == LAST && t.mem[d] == s.mem[d] && FIRST <= d < LAST
    ensures i < NENT && s.mem[d][i].present ==> FIRST <= s.mem[d][i].page < LAST
  {
    hide Entry;
    assert Has(s.own, d, Dir) && RoleRight(s, d);
    if i < NENT && s.mem[d][i].present {
      assert Has(s.own, s.mem[d][i].page, Table(d, i)) && RoleRight(s, s.mem[d][i].page);
    }
  }

  lemma FreedBy(s: Vm, t: Vm, u: Vm, d: nat)
    requires Unmapped(s, t, d, 0, USER) && Freed(t, u, d)
    ensures Freed(s, u, d)
  {
    hide Entry;
    forall p: nat | p in s.own ensures RoleRight(s, p) {}
    forall p: nat | p in s.own && OfSpace(p, s.own[p], d) ensures p in u.free {
      if p !in t.own { assert p in t.free; }
    }
    forall p: nat | p in s.free ensures p in u.free {
      assert p !in t.own;
      assert p in t.free;
    }
  }

  // ---- setupkvm ----

  const EXTMEM: nat := 0x10_0000
  const PHYSTOP: nat := 0xE00_0000
  const DEVSPACE: nat := 0xFE00_0000

  /** V2P(data): the linker script puts the kernel's data on a page boundary. */
  type DataStart = x: nat | EXTMEM < x < PHYSTOP && x % PGSIZE == 0 witness 0x20_0000
  const DATA: DataStart

  datatype Kmap = Kmap(virt: Addr, start: nat, end: nat, perm: nat)

  function KMAP(): (ks: seq<Kmap>)
    ensures |ks| == 4
  {
    [Kmap(KERNBASE, 0, EXTMEM, PTE_W), Kmap(KERNBASE + EXTMEM, EXTMEM, DATA, 0),
     Kmap(KERNBASE + DATA, DATA, PHYSTOP, PTE_W), Kmap(DEVSPACE, DEVSPACE, 0, PTE_W)]
  }

  /** phys_end - phys_start, in 32 bits. */
  function Size(m: Kmap): nat {
    (m.end - m.start) % 0x1_0000_0000
  }

  /** The virtual pages of entry k of kmap. */
  function From(k: nat): nat
    requires k < 4
  {
    KMAP()[k].virt / PGSIZE
  }

  function Count(k: nat): nat
    requires k < 4
  {
    Size(KMAP()[k]) / PGSIZE
  }

  /** The entries are whole pages, in order, apart, in the kernel half. */
  lemma KmapFits(k: nat)
    requires k < 4
    ensures var m := KMAP()[k];
      && m.virt >= KERNBASE && m.virt % PGSIZE == 0 && m.start % PGSIZE == 0 && Size(m) % PGSIZE == 0
      && 0 < Size(m) && m.virt + Size(m) <= 0x1_0000_0000
      && USER <= From(k) < From(k) + Count(k) <= VPAGES
      && (m.virt + Size(m) - 1) / PGSIZE + 1 - m.virt / PGSIZE == Count(k)
      && (k > 0 ==> From(k - 1) + Count(k - 1) <= From(k))
  {
  }

  ghost predicate InKmap(v: nat, k: nat)
  {
    k < 4 && From(k) <= v < From(k) + Count(k)
  }

  /** d maps exactly what the first n entries of kmap say. */
  ghost predicate KernelUpto(t: Vm, d: nat, n: nat) {
    && n <= 4 && d < |t.mem|
    && (forall v: nat, k: nat :: k < n && v < VPAGES && InKmap(v, k) ==>
          Entry(t.mem, d, v) == Pte(true, KMAP()[k].start / PGSIZE + (v - From(k)), KMAP()[k].perm))
    && (forall v: nat :: v < VPAGES && (forall k: nat :: k < n ==> !InKmap(v, k)) ==> !Entry(t.mem, d, v).present)
  }

  ghost predicate KernelOnly(t: Vm, d: nat) {
    KernelUpto(t, d, 4)
  }

  /** d is a new address space, made of pages that were free; every other page is as it was. */
  ghost predicate Born(s: Vm, t: Vm, d: nat) {
    && Inv(s) && Inv(t) && d !in s.own && d !in s.dirs && t.dirs == s.dirs + {d}
    && (forall p: nat :: p in s.own ==> Has(t.own, p, s.own[p]) && t.mem[p] == s.mem[p])
    && (forall p: nat :: p in t.own && p !in s.own ==> OfSpace(p, t.own[p], d))
  }

  /** Same uses, same contents, same free pages. */
  ghost predicate Restored(s: Vm, t: Vm) {
    && Inv(s) && Inv(t) && t.dirs == s.dirs && t.own == s.own
    && (forall p: nat :: p in s.own ==> t.mem[p] == s.mem[p])
    && (forall p: nat :: p in t.free <==> p in s.free)
  }

  lemma RestoredSame(s: Vm)
    requires Inv(s)
    ensures Restored(s, s)
  {
    hide Entry;
    forall p: nat | p in s.own ensures RoleRight(s, p) {}
  }

  lemma BornStart(s: Vm)
    requires Inv(s) && s.free != []
    ensures var d := s.free[0];
      && d < |s.mem|
      && var t := AddDir(Fill(Take(s), d, ZeroPage()), d);
         Inv(t) && Born(s, t, d) && KernelUpto(t, d, 0)
  {
    hide Entry;
    var d := s.free[0];
    TakeInv(s);
    FillEntries(Take(s), d, ZeroPage());
    AddDirInv(Fill(Take(s), d, ZeroPage()), d);
    forall p: nat | p in s.own ensures RoleRight(s, p) {}
    forall c: nat | c in s.dirs ensures Has(s.own, c, Dir) {}
  }

  lemma KmapOrder(j: nat, k: nat)
    requires j < k < 4
    ensures From(j) + Count(j) <= From(k)
    decreases k - j
  {
    hide From, Count;
    KmapFits(j);
    KmapFits(k);
    KmapFits(j + 1);
    if j + 1 < k { KmapOrder(j + 1, k); }
  }

  lemma KernelFree(t: Vm, d: nat, k: nat)
    requires KernelUpto(t, d, k) && k < 4
    ensures forall v: nat :: InKmap(v, k) && v < VPAGES ==> !Entry(t.mem, d, v).present
  {
    hide Entry, From, Count;
    forall v: nat | InKmap(v, k) && v < VPAGES ensures !Entry(t.mem, d, v).present {
      forall j: nat | j < k ensures !InKmap(v, j) { KmapOrder(j, k); }
    }
  }

  lemma BornChanged(s: Vm, t: Vm, u: Vm, d: nat, lo: nat, hi: nat)
    requires Born(s, t, d) && Changed(t, u, d, lo, hi, {})
    ensures Born(s, u, d) && Inv(u) && d in u.dirs
  {
    hide Entry, Inv;
    NotOurs(s, t, d);
  }

  lemma BornPart(s: Vm, t: Vm, u: Vm, d: nat, k: nat)
    requires Born(s, t, d) && k < 4
    requires exists n: nat ::
      n < Count(k) && RangeStopped(t, u, d, From(k), n, KMAP()[k].start / PGSIZE, KMAP()[k].perm)
    ensures Born(s, u, d) && Inv(u) && d in u.dirs
  {
    hide Entry, Inv, Born, Changed, Gained, From, Count, KMAP;
    var n: nat :| n < Count(k) && RangeStopped(t, u, d, From(k), n, KMAP()[k].start / PGSIZE, KMAP()[k].perm);
    KmapFits(k);
    BornChanged(s, t, u, d, From(k), From(k) + n);
  }

  lemma KernelNext(s: Vm, t: Vm, u: Vm, d: nat, k: nat)
    requires Born(s, t, d) && KernelUpto(t, d, k) && k < 4
    requires RangeMapped(t, u, d, From(k), Count(k), KMAP()[k].start / PGSIZE, KMAP()[k].perm)
    ensures Born(s, u, d) && Inv(u) && d in u.dirs && KernelUpto(u, d, k + 1)
  {
    hide Entry, Inv, Born, Kept, From, Count, KMAP;
    KmapFits(k);
    BornChanged(s, t, u, d, From(k), From(k) + Count(k));
    forall v: nat, j: nat | j < k + 1 && v < VPAGES && InKmap(v, j)
      ensures Entry(u.mem, d, v) == Pte(true, KMAP()[j].start / PGSIZE + (v - From(j)), KMAP()[j].perm)
    {
      if j < k { KmapOrder(j, k); }
    }
    forall v: nat | v < VPAGES && forall j: nat :: j < k + 1 ==> !InKmap(v, j) ensures !Entry(u.mem, d, v).present {
      assert !InKmap(v, k);
    }
  }

  lemma UnBorn(s: Vm, u: Vm, z: Vm, d: nat)
    requires Born(s, u, d) && Freed(u, z, d)
    ensures Restored(s, z)
  {
    hide Entry, Inv;
    NotOurs(s, u, d);
    FreeIs(s);
    FreeIs(z);
    assert z.own == s.own;
  }

  // ---- how many pages a new space takes ----

  /** The tables for the first n entries of kmap. */
  ghost function KernelTables(n: nat): set<nat>
    requires n <= 4
  {
    if n == 0 then {} else KernelTables(n - 1) + TablesOf(From(n - 1), From(n - 1) + Count(n - 1))
  }

  /** The directory and a table for each 4 megabytes of kernel mappings. */
  const KVMPAGES: nat := 1 + 56 + 8

  lemma NoTables(t: Vm, d: nat)
    requires d < |t.mem| && t.mem[d] == ZeroPage()
    ensures Tables(t, d) == KernelTables(0)
  {
  }

  lemma KernelTablesNext(t: Vm, u: Vm, d: nat, k: nat)
    requires k < 4 && d < |t.mem| && Tables(t, d) == KernelTables(k) && Gained(t, u, d, From(k), From(k) + Count(k))
    ensures d < |u.mem| && Tables(u, d) == KernelTables(k + 1)
  {
    hide From, Count, Tables, TablesOf;
  }

  lemma {:induction false} KernelTablesGrow(k: nat, n: nat)
    requires k <= n <= 4
    ensures KernelTables(k) <= KernelTables(n)
    decreases n - k
  {
    hide From, Count, TablesOf;
    if k < n { KernelTablesGrow(k + 1, n); }
  }

  lemma KernelRange(k: nat, i: nat)
    requires k < 4
    ensures i in TablesOf(From(k), From(k) + Count(k)) <==> From(k) / NENT <= i <= (From(k) + Count(k) - 1) / NENT
  {
    hide From, Count, KMAP;
    KmapFits(k);
    var lo, hi := From(k), From(k) + Count(k);
    if lo / NENT <= i <= (hi - 1) / NENT {
      var v := if i == lo / NENT then lo else i * NENT;
      assert lo <= v < hi && v / NENT == i;
    }
  }

  lemma KernelSpans()
    ensures From(0) / NENT == 512 && From(3) / NENT == 1016 && (From(3) + Count(3) - 1) / NENT == 1023
    ensures From(1) == From(0) + Count(0) && From(2) == From(1) + Count(1) && (From(2) + Count(2) - 1) / NENT == 567
  {
  }

  lemma KernelTablesAre()
    ensures KernelTables(4) == Span(512, 568) + Span(1016, 1024) && |KernelTables(4)| == KVMPAGES - 1
  {
    hide From, Count, KMAP, TablesOf, Span;
    KernelSpans();
    forall i: nat ensures i in KernelTables(4) <==> i in Span(512, 568) + Span(1016, 1024) {
      KernelRange(0, i);
      KernelRange(1, i);
      KernelRange(2, i);
      KernelRange(3, i);
      KernelTablesIn(i);
      KmapFits(0);
      KmapFits(1);
      KmapFits(2);
    }
    Join(Span(512, 568), Span(1016, 1024));
  }

  lemma KernelTablesIn(i: nat)
    ensures i in KernelTables(4) <==>
      || i in TablesOf(From(0), From(0) + Count(0)) || i in TablesOf(From(1), From(1) + Count(1))
      || i in TablesOf(From(2), From(2) + Count(2)) || i in TablesOf(From(3), From(3) + Count(3))
  {
    hide From, Count, TablesOf;
    assert KernelTables(4) == KernelTables(3) + TablesOf(From(3), From(3) + Count(3));
    assert KernelTables(2) == KernelTables(1) + TablesOf(From(1), From(1) + Count(1));
  }

  /** From s to u the free pages went to the new space and to transit. */
  lemma BornCount(s: Vm, u: Vm, d: nat, x: MaybePage)
    requires Inv(s) && Inv(u) && d in u.dirs && d < |u.mem| && d !in s.own
    requires forall p: nat :: p in s.own ==> Has(u.own, p, s.own[p]) && !OfSpace(p, s.own[p], d)
    requires forall p: nat :: p in u.own && p !in s.own ==> OfSpace(p, u.own[p], d) || x == PageAt(p)
    requires x.PageAt? ==> x.p !in s.own && Has(u.own, x.p, Lent)
    ensures |s.free| == |u.free| + 1 + |Tables(u, d)| + |Users(u, d)| + |Transit(x)|
  {
    hide Inv, Tables, Users;
    PoolCount(s, u);
    SpaceCount(u, d);
    assert Others(u.own, d) == s.own.Keys + Transit(x);
    Join(s.own.Keys, Transit(x));
  }

  lemma NotOfSpace(s: Vm, d: nat)
    requires Inv(s) && d !in s.own
    ensures forall p: nat :: p in s.own ==> !OfSpace(p, s.own[p], d)
  {
    hide Entry;
    forall p: nat | p in s.own ensures !OfSpace(p, s.own[p], d) { assert RoleRight(s, p); }
  }

  lemma NoUsers(u: Vm, d: nat)
    requires d < |u.mem| && forall v: nat :: v < USER ==> !Entry(u.mem, d, v).present
    ensures Users(u, d) == {}
  {
    hide Entry;
  }

  lemma KernelEnough(s: Vm, t: Vm, d: nat)
    requires Born(s, t, d) && KernelUpto(t, d, 4) && Tables(t, d) == KernelTables(4)
    ensures |s.free| >= KVMPAGES
  {
    hide Entry, Inv, Tables, Users, KernelTables;
    KernelTablesAre();
    NotOfSpace(s, d);
    BornCount(s, t, d, NoPage);
  }

  lemma KernelTooMuch(s: Vm, t: Vm, u: Vm, d: nat, k: nat)
    requires Born(s, u, d) && KernelUpto(t, d, k) && k < 4 && u.free == [] && d < |t.mem|
      && Tables(t, d) == KernelTables(k)
    requires exists n: nat ::
      n < Count(k) && RangeStopped(t, u, d, From(k), n, KMAP()[k].start / PGSIZE, KMAP()[k].perm)
    ensures |s.free| < KVMPAGES
  {
    hide Entry, Inv, Born, Kept, From, Count, KMAP, Tables, Users, TablesOf, KernelTables, MapKept, KernelUpto;
    var n: nat :| n < Count(k) && RangeStopped(t, u, d, From(k), n, KMAP()[k].start / PGSIZE, KMAP()[k].perm);
    KernelStoppedUsers(t, u, d, k, n);
    KernelStopped(t, u, d, k, n);
    NotBorn(s, u, d);
    BornCount(s, u, d, NoPage);
  }

  lemma NotBorn(s: Vm, u: Vm, d: nat)
    requires Born(s, u, d)
    ensures Inv(s) && Inv(u) && d in u.dirs && d < |u.mem| && d !in s.own
    ensures forall p: nat :: p in s.own ==> Has(u.own, p, s.own[p]) && !OfSpace(p, s.own[p], d)
    ensures forall p: nat :: p in u.own && p !in s.own ==> OfSpace(p, u.own[p], d)
  {
    hide Entry, Pool, Roles;
    NotOfSpace(s, d);
  }

  lemma KernelStoppedUsers(t: Vm, u: Vm, d: nat, k: nat, n: nat)
    requires KernelUpto(t, d, k) && k < 4 && n < Count(k)
    requires RangeMapped(t, u, d, From(k), n, KMAP()[k].start / PGSIZE, KMAP()[k].perm)
    ensures d < |u.mem| && Users(u, d) == {}
  {
    hide Entry, Inv, Kept, From, Count, KMAP;
    KmapFits(k);
    forall v: nat | v < USER ensures !Entry(u.mem, d, v).present {
      forall j: nat | j < k ensures !InKmap(v, j) { KmapFits(j); }
    }
    NoUsers(u, d);
  }

  lemma NoTableAt(u: Vm, d: nat, i: nat)
    requires d < |u.mem| && i < NENT && !u.mem[d][i].present
    ensures i !in Tables(u, d)
  {
  }

  lemma KernelTablesHas(k: nat)
    requires k < 4
    ensures KernelTables(k + 1) == KernelTables(k) + TablesOf(From(k), From(k) + Count(k))
  {
  }

  lemma KernelStopped(t: Vm, u: Vm, d: nat, k: nat, n: nat)
    requires k < 4 && n < Count(k) && d < |t.mem| == |u.mem| && Tables(t, d) == KernelTables(k)
    requires Gained(t, u, d, From(k), From(k) + n) && From(k) + n < VPAGES && !u.mem[d][(From(k) + n) / NENT].present
    ensures |Tables(u, d)| < KVMPAGES - 1
  {
    hide From, Count, TablesOf, Span, Tables, KernelTables;
    var e := (From(k) + n) / NENT;
    NoTableAt(u, d, e);
    KernelTablesHas(k);
    TablesOfWithin(From(k), From(k) + n, From(k) + Count(k));
    KernelTablesGrow(k + 1, 4);
    KernelTablesAre();
    assert e in KernelTables(4) && e !in Tables(u, d);
    CardinalityMono(Tables(u, d), KernelTables(4) - {e});
  }

  // ---- copyuvm ----

  ghost predicate AllMapped(s: Vm, src: nat, n: nat) {
    src < |s.mem| && n <= USER && forall v: nat :: v < n ==> Entry(s.mem, src, v).present
  }

  /** v of d is mapped, with the flags of e, to a page with the content of the page of e. */
  ghost predicate CopyAt(t: Vm, d: nat, v: nat, e: Pte, c: Page)
    requires d < |t.mem| && v < VPAGES
  {
    var f := Entry(t.mem, d, v);
    f.present && f.flags == e.flags && f.page < |t.mem| && t.mem[f.page] == c
  }

  ghost predicate CopiedOne(t: Vm, u: Vm, d: nat, v: nat, e: Pte) {
    && v < USER && Changed(t, u, d, v, v + 1, {}) && d < |u.mem|
    && e.page < |t.mem| && CopyAt(u, d, v, e, t.mem[e.page])
  }

  /** d has copies of the first n pages of src, no more user pages, and the kernel's mappings. */
  ghost predicate Copied(s: Vm, t: Vm, src: nat, d: nat, n: nat) {
    && src < |s.mem| && d < |t.mem| && n <= USER && AllMapped(s, src, n)
    && (forall v: nat :: v < n ==>
          && Entry(s.mem, src, v).page < |s.mem|
          && CopyAt(t, d, v, Entry(s.mem, src, v), s.mem[Entry(s.mem, src, v).page]))
    && (forall v: nat :: n <= v < USER ==> !Entry(t.mem, d, v).present)
    && (forall v: nat, k: nat :: v < VPAGES && InKmap(v, k) ==>
          Entry(t.mem, d, v) == Pte(true, KMAP()[k].start / PGSIZE + (v - From(k)), KMAP()[k].perm))
  }

  /** All is as before, but for one page that is in use and known to no one. */
  ghost predicate Lost(s: Vm, t: Vm, leaked: MaybePage) {
    && Inv(s) && Inv(t) && t.dirs == s.dirs
    && t.own == (if leaked.PageAt? then s.own[leaked.p := Lent] else s.own) && (leaked.PageAt? ==> leaked.p in s.free)
    && forall p: nat :: p in s.own ==> t.mem[p] == s.mem[p]
  }

  // ---- how many pages a copy takes ----

  /** The kernel part, n pages, and a table for every 1024 of them. */
  function CopyNeeds(n: nat): nat {
    KVMPAGES + n + (n + NENT - 1) / NENT
  }

  /** A failing copy that starts with this many free pages gets its last page and no table for it. */
  predicate LeavesOne(free: nat) {
    free > KVMPAGES && (free - KVMPAGES - 1) % (NENT + 1) == 0
  }

  /** The smallest case: 66 free pages and one page to copy. */
  lemma SixtySixPages()
    ensures 66 < CopyNeeds(1) && LeavesOne(66)
  {
  }

  lemma NothingLeft(free: nat)
    requires free < KVMPAGES
    ensures !LeavesOne(free)
  {
  }

  lemma CopyTables(t: Vm, u: Vm, d: nat, c: nat)
    requires d < |t.mem| && Tables(t, d) == KernelTables(4) + TablesOf(0, c) && Gained(t, u, d, c, c + 1)
    ensures d < |u.mem| && Tables(u, d) == KernelTables(4) + TablesOf(0, c + 1)
  {
    hide Tables, TablesOf, KernelTables;
    TablesOfNext(0, c);
    TablesOfNext(c, c);
  }

  lemma CopyTableCount(c: nat)
    requires c <= USER
    ensures |KernelTables(4) + TablesOf(0, c)| == KVMPAGES - 1 + (c + NENT - 1) / NENT
    ensures c < USER && c / NENT !in KernelTables(4) + TablesOf(0, c) ==> c % NENT == 0
  {
    hide TablesOf, KernelTables, Span;
    KernelTablesAre();
    TablesOfFirst(c);
    Join(KernelTables(4), TablesOf(0, c));
  }

  lemma CopiedUsers(s: Vm, t: Vm, u: Vm, src: nat, d: nat, c: nat, x: set<nat>)
    requires Copied(s, t, src, d, c) && Changed(t, u, d, 0, 0, x)
    ensures d < |u.mem| && Users(u, d) == Span(0, c)
  {
    hide Entry, Inv, Kept;
    forall v: nat | v < USER ensures v in Users(u, d) <==> v < c {
      assert v < c ==> CopyAt(t, d, v, Entry(s.mem, src, v), s.mem[Entry(s.mem, src, v).page]);
    }
  }

  lemma CopyTransit(s: Vm, t: Vm, u: Vm, d: nat, q: MaybePage)
    requires Born(s, t, d) && Changed(t, u, d, 0, 0, Transit(q)) && (q.PageAt? ==> q.p !in t.own)
    ensures Inv(s) && Inv(u) && d in u.dirs && d !in s.own
    ensures forall p: nat :: p in s.own ==> Has(u.own, p, s.own[p]) && !OfSpace(p, s.own[p], d)
    ensures forall p: nat :: p in u.own && p !in s.own ==> OfSpace(p, u.own[p], d) || q == PageAt(p)
    ensures q.PageAt? ==> q.p !in s.own
  {
    hide Entry, Inv, MapKept;
    NotBorn(s, t, d);
  }

  lemma CopyCount(s: Vm, t: Vm, u: Vm, src: nat, d: nat, c: nat, q: MaybePage)
    requires Born(s, t, d) && Copied(s, t, src, d, c) && d < |u.mem| && Tables(u, d) == KernelTables(4) + TablesOf(0, c)
    requires Changed(t, u, d, 0, 0, Transit(q)) && (q.PageAt? ==> q.p !in t.own && Has(u.own, q.p, Lent))
    ensures |s.free| == |u.free| + CopyNeeds(c) + |Transit(q)|
  {
    hide Born, Changed, Inv, Tables, Users, TablesOf, KernelTables, Entry, Span, Transit;
    CopiedUsers(s, t, u, src, d, c, Transit(q));
    CopyTransit(s, t, u, d, q);
    BornCount(s, u, d, q);
    CopyTableCount(c);
  }

  lemma CopyEnough(s: Vm, t: Vm, src: nat, d: nat, n: nat)
    requires Born(s, t, d) && Copied(s, t, src, d, n) && d < |t.mem| && Tables(t, d) == KernelTables(4) + TablesOf(0, n)
    ensures |s.free| >= CopyNeeds(n)
  {
    hide Changed, Inv, Tables, TablesOf, KernelTables, Entry, Copied;
    NoChange(t, d);
    CopyCount(s, t, t, src, d, n, NoPage);
  }

  lemma CopyTooMuch(s: Vm, t: Vm, u: Vm, src: nat, d: nat, c: nat, n: nat, q: MaybePage)
    requires Born(s, t, d) && Copied(s, t, src, d, c) && c < n <= USER && u.free == [] && d in t.dirs
    requires d < |t.mem| && Tables(t, d) == KernelTables(4) + TablesOf(0, c)
    requires q == NoPage ==> u == t
    requires q.PageAt? ==>
      q.p !in t.own && Has(u.own, q.p, Lent) && Changed(t, u, d, 0, 0, {q.p}) && NoTableFor(t, u, d, c)
    ensures |s.free| < CopyNeeds(n)
    ensures q.PageAt? <==> LeavesOne(|s.free|)
  {
    hide Changed, Inv, Tables, TablesOf, KernelTables, Entry, Copied, LeavesOne, CopyNeeds;
    if q == NoPage { BornInv(s, t, d); NoChange(t, d); }
    CopyCount(s, t, u, src, d, c, q);
    CopyTableCount(c);
    LastPage(c, n);
  }

  lemma BornInv(s: Vm, t: Vm, d: nat)
    requires Born(s, t, d)
    ensures Inv(t) && d in t.dirs
  {
    hide Inv;
  }

  /** Running out between pages or at a table leaves different numbers of pages. */
  lemma LastPage(c: nat, n: nat)
    requires c < n
    ensures CopyNeeds(c) < CopyNeeds(n) && !LeavesOne(CopyNeeds(c))
    ensures c % NENT == 0 ==> CopyNeeds(c) + 1 < CopyNeeds(n) && LeavesOne(CopyNeeds(c) + 1)
  {
    var j, r := c / NENT, c % NENT;
    assert c == NENT * j + r;
    if r == 0 {
      assert CopyNeeds(c) == KVMPAGES + (NENT + 1) * j;
      assert (NENT + 1) * j % (NENT + 1) == 0;
      assert (n + NENT - 1) / NENT >= j + 1;
      if j > 0 { assert CopyNeeds(c) - KVMPAGES - 1 == (NENT + 1) * (j - 1) + NENT; }
    } else {
      assert CopyNeeds(c) - KVMPAGES - 1 == (NENT + 1) * j + r;
    }
  }

  lemma LostNothing(s: Vm, t: Vm)
    requires Restored(s, t)
    ensures Lost(s, t, NoPage)
  {
    hide Entry;
  }

  lemma CopySize(sz: nat)
    requires sz <= KERNBASE
    ensures RoundUp(sz) / PGSIZE <= USER
  {
  }

  lemma CopyStart(s: Vm, t: Vm, src: nat, d: nat)
    requires Born(s, t, d) && KernelOnly(t, d) && src in s.dirs
    ensures Copied(s, t, src, d, 0) && src in t.dirs && d in t.dirs && Inv(t)
  {
    hide Entry;
    forall v: nat | v < USER ensures !Entry(t.mem, d, v).present {
      forall k: nat | k < 4 ensures !InKmap(v, k) { KmapFits(k); }
    }
  }

  /** The other spaces are untouched while d grows. */
  lemma BornEntry(s: Vm, t: Vm, d: nat, src: nat, v: nat)
    requires Born(s, t, d) && src in s.dirs && v < USER
    ensures src != d && src < |s.mem| == |t.mem| && Entry(t.mem, src, v) == Entry(s.mem, src, v)
    ensures Entry(s.mem, src, v).present ==> Entry(s.mem, src, v).page in s.own && Entry(s.mem, src, v).page < |s.mem|
  {
    assert Has(s.own, src, Dir);
    var e := s.mem[src][v / NENT];
    if e.present { assert Has(s.own, e.page, Table(src, v / NENT)) && RoleRight(s, e.page); }
    var f := Entry(s.mem, src, v);
    if f.present { assert Has(s.own, f.page, User(src, v)) && RoleRight(s, f.page); }
  }

  lemma CopyReady(s: Vm, t: Vm, src: nat, d: nat, c: nat)
    requires Copied(s, t, src, d, c) && c < USER
    ensures d < |t.mem| && !Entry(t.mem, d, c).present
  {
    hide Entry;
  }

  lemma CopiedBy(t: Vm, u: Vm, w: Vm, d: nat, v: nat, p: nat, e: Pte)
    requires Changed(t, u, d, 0, 0, {p}) && RangeMapped(u, w, d, v, 1, p, e.flags) && v < USER
    requires p !in t.own && p < |u.mem| && e.page < |t.mem| && u.mem[p] == t.mem[e.page]
    ensures CopiedOne(t, w, d, v, e)
  {
    hide Entry, Inv;
    ChangedWider(t, u, d, 0, 0, {p}, v, v + 1, {p});
    ChangedTrans(t, u, w, d, v, v + 1, {p});
    DropTransit(t, w, d, v, v + 1, p);
  }

  lemma CopyNext(s: Vm, t: Vm, u: Vm, src: nat, d: nat, c: nat)
    requires Born(s, t, d) && Copied(s, t, src, d, c) && src in s.dirs && c < USER && Entry(s.mem, src, c).present
    requires CopiedOne(t, u, d, c, Entry(s.mem, src, c)) && Entry(s.mem, src, c).page in s.own
      && Entry(s.mem, src, c).page < |s.mem|
    ensures Born(s, u, d) && Inv(u) && src in u.dirs && d in u.dirs && Copied(s, u, src, d, c + 1)
  {
    hide Entry, Inv, CopyAt, From, Count, KMAP;
    BornChanged(s, t, u, d, c, c + 1);
    assert t.mem[Entry(s.mem, src, c).page] == s.mem[Entry(s.mem, src, c).page];
    forall v: nat | v < c ensures CopyAt(u, d, v, Entry(s.mem, src, v), s.mem[Entry(s.mem, src, v).page]) {
      CopyStays(t, u, d, c, v, Entry(s.mem, src, v), s.mem[Entry(s.mem, src, v).page]);
    }
    forall v: nat, k: nat | v < VPAGES && InKmap(v, k) ensures Entry(u.mem, d, v) == Entry(t.mem, d, v) { KmapFits(k); }
  }

  lemma CopyStays(t: Vm, u: Vm, d: nat, c: nat, v: nat, e: Pte, p: Page)
    requires Changed(t, u, d, c, c + 1, {}) && d < |t.mem| && d < |u.mem| && v < c <= USER && CopyAt(t, d, v, e, p)
    ensures CopyAt(u, d, v, e, p)
  {
    hide Entry;
    assert Has(t.own, Entry(t.mem, d, v).page, User(d, v));
  }

  lemma LostBy(s: Vm, t: Vm, u: Vm, z: Vm, d: nat, q: MaybePage)
    requires Born(s, t, d) && Freed(u, z, d)
    requires q == NoPage ==> u == t
    requires q.PageAt? ==> q.p !in t.own && Has(u.own, q.p, Lent) && Changed(t, u, d, 0, 0, {q.p})
    ensures Lost(s, z, q)
  {
    hide Entry, Inv;
    if q == NoPage {
      UnBorn(s, u, z, d);
    } else {
      NotOurs(s, t, d);
      FreeIs(s);
      FreeIs(z);
      InRange(u, q.p);
      assert z.own == s.own[q.p := Lent];
    }
  }

  lemma NotOurs(s: Vm, t: Vm, d: nat)
    requires Born(s, t, d)
    ensures |s.mem| == |t.mem| && forall p: nat :: p in s.own ==> !OfSpace(p, s.own[p], d) && p < |s.mem|
  {
    hide Entry;
    forall p: nat | p in s.own ensures !OfSpace(p, s.own[p], d) && p < |s.mem| { assert RoleRight(s, p); }
  }

  lemma FreeIs(s: Vm)
    requires Inv(s)
    ensures forall p: nat :: p in s.free <==> FIRST <= p < LAST && p !in s.own
  {
    hide Entry;
  }

  lemma InRange(s: Vm, p: nat)
    requires Inv(s) && p in s.own
    ensures FIRST <= p < LAST
  {
    hide Entry;
    assert RoleRight(s, p);
  }

  // ---- a whole life of an address space ----

  /** What an allocuvm, failed or not, or a deallocuvm on d does. */
  ghost predicate Step(t: Vm, u: Vm, d: nat) {
    exists lo: nat, hi: nat :: Changed(t, u, d, lo, hi, {})
  }

  ghost predicate Run(ts: seq<Vm>, d: nat) {
    forall i: nat :: i + 1 < |ts| ==> Step(ts[i], ts[i + 1], d)
  }

  /**
    From setupkvm through any allocuvm and deallocuvm calls to freevm: at the end
    exactly the pages that were free at the start are free, each of them once, and
    every other page has the use and the content it had.
   */
  lemma {:induction false} LifeConserves(s: Vm, ts: seq<Vm>, z: Vm, d: nat)
    requires ts != [] && Born(s, ts[0], d) && Run(ts, d) && Freed(ts[|ts| - 1], z, d)
    ensures Restored(s, z) && NoDup(z.free)
    decreases |ts|
  {
    hide Entry, Inv;
    if |ts| == 1 {
      UnBorn(s, ts[0], z, d);
      assert NoDup(z.free) by { FreeOnce(z); }
    } else {
      assert Step(ts[0], ts[0 + 1], d);
      var lo: nat, hi: nat :| Changed(ts[0], ts[1], d, lo, hi, {});
      BornChanged(s, ts[0], ts[1], d, lo, hi);
      forall i: nat | i + 1 < |ts[1..]| ensures Step(ts[1..][i], ts[1..][i + 1], d) {
        assert Step(ts[i + 1], ts[i + 1 + 1], d);
      }
      LifeConserves(s, ts[1..], z, d);
    }
  }

  lemma FreeOnce(z: Vm)
    requires Inv(z)
    ensures NoDup(z.free)
  {
  }
}
