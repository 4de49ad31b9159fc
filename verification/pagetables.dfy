/**
  Physical pages and two-level page tables (vm.c, kalloc.c).  Pages are numbered;
  a page is 1024 words, read as page table entries.  Every page that kinit gave
  to the allocator is on the free list or has exactly one use.
 */
module PageTables {
  import opened Seqs

  const NENT: nat := 1024              // entries of a page directory or page table
  const USER: nat := 512 * NENT        // KERNBASE / PGSIZE: user pages are below
  const VPAGES: nat := 1024 * NENT       // pages of the address space

  const FIRST: pos                     // first page after the kernel
  const LAST: nat                      // PHYSTOP / PGSIZE

  type pos = x: nat | x > 0 witness 1

  datatype Pte = Pte(present: bool, page: nat, flags: nat)

  type Page = p: seq<Pte> | |p| == NENT witness seq(NENT, i => Pte(false, 0, 0))

  /** What a page in use is used for; Lent is everything outside page tables, and pages in transit. */
  datatype Role = Dir | Table(d: nat, i: nat) | User(d: nat, v: nat) | Lent

  datatype Vm = Vm(mem: seq<Page>, free: seq<nat>, own: map<nat, Role>, dirs: set<nat>)

  const NoPte: Pte := Pte(false, 0, 0)

  function ZeroPage(): Page {
    seq(NENT, i => NoPte)
  }

  /** memset(v, 1, PGSIZE): entries that look present. */
  function JunkPage(): Page {
    seq(NENT, i => Pte(true, 0x1010, 0x101))
  }

  /** The entry for virtual page v in the address space of directory d. */
  function Entry(mem: seq<Page>, d: nat, v: nat): Pte
    requires d < |mem| && v < VPAGES
  {
    var e := mem[d][v / NENT];
    if e.present && e.page < |mem| then mem[e.page][v % NENT] else NoPte
  }

  ghost predicate Has(own: map<nat, Role>, p: nat, r: Role) {
    p in own && own[p] == r
  }

  ghost predicate RoleRight(s: Vm, p: nat)
    requires p in s.own
  {
    && FIRST <= p < LAST && p < |s.mem|
    && match s.own[p]
       case Dir => p in s.dirs
       case Table(d, i) => d in s.dirs && d < |s.mem| && i < NENT && s.mem[d][i].present && s.mem[d][i].page == p
       case User(d, v) => d in s.dirs && d < |s.mem| && v < USER && Entry(s.mem, d, v).present
         && Entry(s.mem, d, v).page == p
       case Lent => true
  }

  /** Every page is free or in use, and not both. */
  ghost predicate Pool(s: Vm) {
    && NoDup(s.free) && |s.mem| == LAST
    && (forall p: nat :: p in s.free ==> FIRST <= p < LAST && p !in s.own)
    && (forall p: nat :: FIRST <= p < LAST && p !in s.own ==> p in s.free)
  }

  /** The tables of each address space and the user pages it maps are its own. */
  ghost predicate Trees(s: Vm) {
    && (forall d: nat :: d in s.dirs ==> d < |s.mem| && Has(s.own, d, Dir))
    && (forall d: nat, i: nat :: d in s.dirs && d < |s.mem| && i < NENT && s.mem[d][i].present
          ==> Has(s.own, s.mem[d][i].page, Table(d, i)))
    && (forall d: nat, v: nat :: d in s.dirs && d < |s.mem| && v < USER && Entry(s.mem, d, v).present
          ==> Has(s.own, Entry(s.mem, d, v).page, User(d, v)))
  }

  ghost predicate Roles(s: Vm) {
    forall p: nat :: p in s.own ==> RoleRight(s, p)
  }

  ghost predicate Inv(s: Vm) {
    Pool(s) && Trees(s) && Roles(s)
  }

  /** All entries of all address spaces are the same. */
  ghost predicate SameEntries(s: Vm, t: Vm) {
    && |t.mem| == |s.mem| && t.dirs == s.dirs
    && (forall d: nat, i: nat :: d in s.dirs && d < |s.mem| && i < NENT ==> t.mem[d][i] == s.mem[d][i])
    && (forall d: nat, v: nat :: d in s.dirs && d < |s.mem| && v < VPAGES ==> Entry(t.mem, d, v) == Entry(s.mem, d, v))
  }

  // ---- kalloc, kfree ----

  ghost function Take(s: Vm): Vm
    requires s.free != []
  {
    Vm(s.mem, s.free[1..], s.own[s.free[0] := Lent], s.dirs)
  }

  ghost function Give(s: Vm, p: nat): Vm
    requires p < |s.mem|
  {
    Vm(s.mem[p := JunkPage()], [p] + s.free, s.own - {p}, s.dirs)
  }

  ghost function Fill(s: Vm, p: nat, c: Page): Vm
    requires p < |s.mem|
  {
    Vm(s.mem[p := c], s.free, s.own, s.dirs)
  }

  lemma TakeInv(s: Vm)
    requires Inv(s) && s.free != []
    ensures Inv(Take(s)) && SameEntries(s, Take(s)) && s.free[0] !in s.own && FIRST <= s.free[0] < LAST
  {
    hide Entry;
    var t, p := Take(s), s.free[0];
    assert p in s.free && s.free == [p] + s.free[1..];
    assert p !in t.free;
    forall x: nat ensures x in t.free <==> x in s.free && x != p {
      assert x in s.free <==> x in [p] + s.free[1..];
    }
    forall x: nat | x in t.own ensures RoleRight(t, x) { if x != p { assert RoleRight(s, x); } }
  }

  /** A page whose content is nobody's page table can change. */
  lemma FillEntries(s: Vm, p: nat, c: Page)
    requires Inv(s) && p < LAST && (p in s.own ==> s.own[p] == Lent)
    ensures Inv(Fill(s, p, c)) && SameEntries(s, Fill(s, p, c))
  {
    var t := Fill(s, p, c);
    forall d: nat | d in s.dirs ensures d != p { assert Has(s.own, d, Dir); }
    forall d: nat, v: nat | d in s.dirs && d < |s.mem| && v < VPAGES ensures Entry(t.mem, d, v) == Entry(s.mem, d, v) {
      var e := s.mem[d][v / NENT];
      if e.present { assert Has(s.own, e.page, Table(d, v / NENT)); }
    }
    assert SameEntries(s, t);
    SameInv(s, t);
  }

  lemma SameInv(s: Vm, t: Vm)
    requires Inv(s) && SameEntries(s, t) && t.own == s.own && t.free == s.free
    ensures Inv(t)
  {
    hide Entry;
    forall x: nat | x in t.own ensures RoleRight(t, x) { assert RoleRight(s, x); }
  }

  lemma GiveInv(s: Vm, p: nat)
    requires Inv(s) && Has(s.own, p, Lent)
    ensures p < |s.mem| && Inv(Give(s, p)) && SameEntries(s, Give(s, p))
  {
    hide Entry;
    assert RoleRight(s, p);
    FillEntries(s, p, JunkPage());
    var u, t := Fill(s, p, JunkPage()), Give(s, p);
    assert p !in s.free;
    forall x: nat | x in t.own ensures RoleRight(t, x) { assert RoleRight(u, x); }
  }

  // ---- directories and page tables ----

  /** A lent, zeroed page becomes an empty directory. */
  ghost function AddDir(s: Vm, p: nat): Vm {
    Vm(s.mem, s.free, s.own[p := Dir], s.dirs + {p})
  }

  lemma AddDirInv(s: Vm, p: nat)
    requires Inv(s) && Has(s.own, p, Lent) && p < |s.mem| && s.mem[p] == ZeroPage()
    ensures var t := AddDir(s, p);
      && Inv(t) && p !in s.dirs
      && forall v: nat :: v < VPAGES ==> Entry(t.mem, p, v) == NoPte
  {
    var t := AddDir(s, p);
    assert RoleRight(s, p);
    assert forall d: nat :: d in s.dirs ==> Has(s.own, d, Dir);
    forall x: nat | x in t.own ensures RoleRight(t, x) { assert RoleRight(s, x); }
  }

  /** Entry i of page x set to e. */
  ghost function Poke(mem: seq<Page>, x: nat, i: nat, e: Pte): seq<Page>
    requires x < |mem| && i < NENT
  {
    mem[x := mem[x][i := e]]
  }

  /** walkpgdir: a lent, zeroed page becomes the page table behind entry i of directory d. */
  ghost function AddTable(s: Vm, d: nat, i: nat, p: nat, flags: nat): Vm
    requires d < |s.mem| && i < NENT
  {
    Vm(Poke(s.mem, d, i, Pte(true, p, flags)), s.free, s.own[p := Table(d, i)], s.dirs)
  }

  /** The mapping of every page is what it was: present with the same page and flags, or absent. */
  ghost predicate SameMap(s: Vm, t: Vm) {
    && |t.mem| == |s.mem| && t.dirs == s.dirs
    && (forall d: nat, v: nat :: d in s.dirs && d < |s.mem| && v < VPAGES ==>
          if Entry(s.mem, d, v).present then Entry(t.mem, d, v) == Entry(s.mem, d, v) else !Entry(t.mem, d, v).present)
  }

  lemma AddTableInv(s: Vm, d: nat, i: nat, p: nat, flags: nat)
    requires Inv(s) && d in s.dirs && i < NENT && !s.mem[d][i].present
    requires Has(s.own, p, Lent) && p < |s.mem| && s.mem[p] == ZeroPage()
    ensures Inv(AddTable(s, d, i, p, flags)) && SameMap(s, AddTable(s, d, i, p, flags))
  {
    var t := AddTable(s, d, i, p, flags);
    assert RoleRight(s, p) && Has(s.own, d, Dir);
    forall c: nat, v: nat | c in s.dirs && v < VPAGES
      ensures Entry(t.mem, c, v) == if c == d && v / NENT == i then NoPte else Entry(s.mem, c, v)
    {
      var e := s.mem[c][v / NENT];
      if e.present { assert Has(s.own, e.page, Table(c, v / NENT)); }
    }
    AddTableRoles(s, t, d, i, p);
  }

  lemma AddTableRoles(s: Vm, t: Vm, d: nat, i: nat, p: nat)
    requires Inv(s) && d in s.dirs && i < NENT && !s.mem[d][i].present && Has(s.own, p, Lent) && p < |s.mem|
    requires t.own == s.own[p := Table(d, i)] && t.dirs == s.dirs && t.free == s.free && |t.mem| == |s.mem|
      && FIRST <= p < LAST
    requires t.mem[d][i].present && t.mem[d][i].page == p
    requires forall c: nat, k: nat :: c in s.dirs && k < NENT && !(c == d && k == i) ==> t.mem[c][k] == s.mem[c][k]
    requires forall c: nat, v: nat :: c in s.dirs && v < VPAGES ==>
               Entry(t.mem, c, v) == if c == d && v / NENT == i then NoPte else Entry(s.mem, c, v)
    ensures Inv(t)
  {
    hide Entry;
    forall x: nat | x in t.own ensures RoleRight(t, x) {
      if x != p {
        assert RoleRight(s, x);
        if s.own[x].User? {
          assert Entry(s.mem, s.own[x].d, s.own[x].v).present;
          AbsentBelow(s, d, i, s.own[x].d, s.own[x].v);
        }
      }
    }
  }

  lemma AbsentBelow(s: Vm, d: nat, i: nat, c: nat, v: nat)
    requires d < |s.mem| && i < NENT && !s.mem[d][i].present && c < |s.mem| && v < VPAGES && Entry(s.mem, c, v).present
    ensures !(c == d && v / NENT == i)
  {
  }

  /** The page table page behind a present directory entry. */
  function TableOf(mem: seq<Page>, d: nat, v: nat): nat
    requires d < |mem| && v < VPAGES
  {
    mem[d][v / NENT].page
  }

  /** The entry of v set to e. */
  ghost function SetEntry(s: Vm, d: nat, v: nat, e: Pte, own: map<nat, Role>): Vm
    requires d < |s.mem| && v < VPAGES && TableOf(s.mem, d, v) < |s.mem|
  {
    Vm(Poke(s.mem, TableOf(s.mem, d, v), v % NENT, e), s.free, own, s.dirs)
  }

  lemma SetEntryOnly(s: Vm, d: nat, v: nat, e: Pte, own: map<nat, Role>)
    requires Inv(s) && d in s.dirs && v < VPAGES && s.mem[d][v / NENT].present
    ensures TableOf(s.mem, d, v) < |s.mem|
    ensures var t := SetEntry(s, d, v, e, own);
      && (forall c: nat, i: nat :: c in s.dirs && i < NENT ==> t.mem[c][i] == s.mem[c][i])
      && (forall c: nat, w: nat :: c in s.dirs && w < VPAGES ==>
            Entry(t.mem, c, w) == if c == d && w == v then e else Entry(s.mem, c, w))
  {
    var x := TableOf(s.mem, d, v);
    assert Has(s.own, x, Table(d, v / NENT)) && RoleRight(s, x);
    assert forall c: nat :: c in s.dirs ==> Has(s.own, c, Dir);
    var t := SetEntry(s, d, v, e, own);
    forall c: nat, w: nat | c in s.dirs && w < VPAGES
      ensures Entry(t.mem, c, w) == if c == d && w == v then e else Entry(s.mem, c, w)
    {
      var f := s.mem[c][w / NENT];
      if f.present { assert Has(s.own, f.page, Table(c, w / NENT)) && RoleRight(s, f.page); }
    }
  }

  /** mappages on a user page: a lent page becomes the user's. */
  lemma MapUserInv(s: Vm, d: nat, v: nat, p: nat, flags: nat)
    requires Inv(s) && d in s.dirs && v < USER && s.mem[d][v / NENT].present && !Entry(s.mem, d, v).present
    requires Has(s.own, p, Lent)
    ensures TableOf(s.mem, d, v) < |s.mem| && Inv(SetEntry(s, d, v, Pte(true, p, flags), s.own[p := User(d, v)]))
  {
    hide Entry;
    var own := s.own[p := User(d, v)];
    SetEntryOnly(s, d, v, Pte(true, p, flags), own);
    var t := SetEntry(s, d, v, Pte(true, p, flags), own);
    assert RoleRight(s, p);
    forall x: nat | x in t.own ensures RoleRight(t, x) { assert RoleRight(s, x); }
  }

  /** mappages on a kernel page. */
  lemma MapKernelInv(s: Vm, d: nat, v: nat, e: Pte)
    requires Inv(s) && d in s.dirs && USER <= v < VPAGES && s.mem[d][v / NENT].present
    ensures TableOf(s.mem, d, v) < |s.mem| && Inv(SetEntry(s, d, v, e, s.own))
  {
    hide Entry;
    SetEntryOnly(s, d, v, e, s.own);
    var t := SetEntry(s, d, v, e, s.own);
    forall x: nat | x in t.own ensures RoleRight(t, x) { assert RoleRight(s, x); }
  }

  /** deallocuvm on a present user page, up to the kfree. */
  lemma UnmapInv(s: Vm, d: nat, v: nat)
    requires Inv(s) && d in s.dirs && v < USER && Entry(s.mem, d, v).present
    ensures s.mem[d][v / NENT].present && TableOf(s.mem, d, v) < |s.mem|
    ensures var p := Entry(s.mem, d, v).page;
      && Has(s.own, p, User(d, v)) && FIRST <= p < LAST
      && Inv(SetEntry(s, d, v, NoPte, s.own[p := Lent]))
  {
    var p := Entry(s.mem, d, v).page;
    assert Has(s.own, p, User(d, v)) && RoleRight(s, p);
    SetEntryOnly(s, d, v, NoPte, s.own[p := Lent]);
    UnmapRoles(s, SetEntry(s, d, v, NoPte, s.own[p := Lent]), d, v, p);
  }

  lemma UnmapRoles(s: Vm, t: Vm, d: nat, v: nat, p: nat)
    requires Inv(s) && d in s.dirs && v < USER && Has(s.own, p, User(d, v))
    requires t.own == s.own[p := Lent] && t.dirs == s.dirs && t.free == s.free && |t.mem| == |s.mem|
    requires forall c: nat, i: nat :: c in s.dirs && i < NENT ==> t.mem[c][i] == s.mem[c][i]
    requires forall c: nat, w: nat :: c in s.dirs && w < VPAGES ==>
      Entry(t.mem, c, w) == if c == d && w == v then NoPte else Entry(s.mem, c, w)
    ensures Inv(t)
  {
    hide Entry;
    assert RoleRight(s, p);
    forall x: nat | x in t.own ensures RoleRight(t, x) { assert RoleRight(s, x); }
  }

  // ---- what an operation on one address space leaves alone ----

  predicate OfSpace(p: nat, r: Role, d: nat) {
    (r == Dir && p == d) || (r.Table? && r.d == d) || (r.User? && r.d == d)
  }

  /**
    Every page in use stays so, but for those in x and the user pages lo to hi - 1
    of d, and keeps its content, but for the directory and tables of d.  New uses
    are for d, those in x apart.
   */
  ghost predicate Kept(s: Vm, t: Vm, d: nat, lo: nat, hi: nat, x: set<nat>) {
    && |t.mem| == |s.mem|
    && (forall p: nat :: p !in x && p in s.own && !(s.own[p].User? && s.own[p].d == d && lo <= s.own[p].v < hi) ==>
          && Has(t.own, p, s.own[p])
          && (p < |s.mem| && (!OfSpace(p, s.own[p], d) || s.own[p].User?) ==> t.mem[p] == s.mem[p]))
    && (forall p: nat :: p !in x && p in t.own && !OfSpace(p, t.own[p], d) ==> Has(s.own, p, t.own[p]))
  }

  /** The map of d outside lo to hi - 1 stays. */
  ghost predicate MapKept(s: Vm, t: Vm, d: nat, lo: nat, hi: nat) {
    && d < |s.mem| == |t.mem|
    && forall v: nat :: v < VPAGES && !(lo <= v < hi) ==>
         if Entry(s.mem, d, v).present then Entry(t.mem, d, v) == Entry(s.mem, d, v) else !Entry(t.mem, d, v).present
  }

  /** From s to t, space d has changed only between lo and hi, and gained tables; x is in transit. */
  ghost predicate Changed(s: Vm, t: Vm, d: nat, lo: nat, hi: nat, x: set<nat>) {
    && Inv(s) && Inv(t) && d in s.dirs && t.dirs == s.dirs
    && Kept(s, t, d, lo, hi, x) && MapKept(s, t, d, lo, hi)
  }

  lemma ChangedTrans(s: Vm, t: Vm, u: Vm, d: nat, lo: nat, hi: nat, x: set<nat>)
    requires Changed(s, t, d, lo, hi, x) && Changed(t, u, d, lo, hi, x)
    ensures Changed(s, u, d, lo, hi, x)
  {
    hide Inv, Entry;
  }

  /** A part of a change is a change. */
  lemma ChangedWider(s: Vm, t: Vm, d: nat, lo: nat, hi: nat, x: set<nat>, lo': nat, hi': nat, x': set<nat>)
    requires Changed(s, t, d, lo, hi, x) && x <= x' && (lo < hi ==> lo' <= lo && hi <= hi')
    ensures Changed(s, t, d, lo', hi', x')
  {
    hide Inv, Entry;
  }

  // ---- the steps as changes ----

  lemma TakeChanged(s: Vm, d: nat, c: Page)
    requires Inv(s) && s.free != [] && d in s.dirs
    ensures s.free[0] < |s.mem|
    ensures var p, t := s.free[0], Fill(Take(s), s.free[0], c);
      && Changed(s, t, d, 0, 0, {p}) && Has(t.own, p, Lent) && t.mem[p] == c && p !in s.own && SameEntries(s, t)
  {
    hide Entry;
    var p, u := s.free[0], Take(s);
    TakeInv(s);
    FillEntries(u, p, c);
    assert forall q: nat :: q in s.own ==> RoleRight(s, q);
  }

  /** walkpgdir with a new page table. */
  lemma TableChanged(s: Vm, d: nat, i: nat, flags: nat)
    requires Inv(s) && s.free != [] && d in s.dirs && i < NENT && !s.mem[d][i].present
    ensures s.free[0] < |s.mem|
    ensures var t := AddTable(Fill(Take(s), s.free[0], ZeroPage()), d, i, s.free[0], flags);
      Changed(s, t, d, 0, 0, {}) && t.mem[d][i].present
  {
    hide Entry;
    var p := s.free[0];
    TakeChanged(s, d, ZeroPage());
    var u := Fill(Take(s), p, ZeroPage());
    AddTableInv(u, d, i, p, flags);
    var t := AddTable(u, d, i, p, flags);
    assert Has(s.own, d, Dir);
    MapKeptBoth(s, u, t, d);
  }

  lemma MapKeptBoth(s: Vm, u: Vm, t: Vm, d: nat)
    requires Inv(s) && d in s.dirs && d < |s.mem| && SameEntries(s, u) && SameMap(u, t)
    ensures MapKept(s, t, d, 0, 0)
  {
    hide Entry, Inv;
  }

  lemma UserChanged(s: Vm, d: nat, v: nat, p: nat, flags: nat)
    requires Inv(s) && d in s.dirs && v < USER && s.mem[d][v / NENT].present && !Entry(s.mem, d, v).present
    requires Has(s.own, p, Lent)
    ensures TableOf(s.mem, d, v) < |s.mem|
    ensures var t := SetEntry(s, d, v, Pte(true, p, flags), s.own[p := User(d, v)]);
      && Changed(s, t, d, v, v + 1, {p}) && Entry(t.mem, d, v) == Pte(true, p, flags)
      && t.mem[p] == s.mem[p] && Has(t.own, p, User(d, v))
  {
    hide Entry;
    MapUserInv(s, d, v, p, flags);
    SetEntryOnly(s, d, v, Pte(true, p, flags), s.own[p := User(d, v)]);
    assert Has(s.own, TableOf(s.mem, d, v), Table(d, v / NENT)) && RoleRight(s, p);
  }

  lemma KernelChanged(s: Vm, d: nat, v: nat, e: Pte)
    requires Inv(s) && d in s.dirs && USER <= v < VPAGES && s.mem[d][v / NENT].present
    ensures TableOf(s.mem, d, v) < |s.mem|
    ensures var t := SetEntry(s, d, v, e, s.own); Changed(s, t, d, v, v + 1, {}) && Entry(t.mem, d, v) == e
  {
    hide Entry;
    MapKernelInv(s, d, v, e);
    SetEntryOnly(s, d, v, e, s.own);
    assert Has(s.own, TableOf(s.mem, d, v), Table(d, v / NENT));
  }

  /** kfree of a user page and clearing of its entry. */
  lemma UnmapChanged(s: Vm, d: nat, v: nat)
    requires Inv(s) && d in s.dirs && v < USER && Entry(s.mem, d, v).present
    ensures s.mem[d][v / NENT].present && TableOf(s.mem, d, v) < |s.mem|
    ensures var p := Entry(s.mem, d, v).page;
      && FIRST <= p < LAST && p < |s.mem| && p != TableOf(s.mem, d, v) && p != d
      && var t := Give(SetEntry(s, d, v, NoPte, s.own[p := Lent]), p);
         Changed(s, t, d, v, v + 1, {}) && !Entry(t.mem, d, v).present && p in t.free
  {
    hide Entry;
    UnmapInv(s, d, v);
    var p := Entry(s.mem, d, v).page;
    SetEntryOnly(s, d, v, NoPte, s.own[p := Lent]);
    var u := SetEntry(s, d, v, NoPte, s.own[p := Lent]);
    GiveInv(u, p);
    assert Has(s.own, TableOf(s.mem, d, v), Table(d, v / NENT)) && Has(s.own, d, Dir);
  }

  // ---- freevm ----

  /** Directory and tables of d, no longer an address space. */
  ghost function Retire(s: Vm, d: nat): Vm {
    Vm(s.mem, s.free, map p | p in s.own :: if OfSpace(p, s.own[p], d) then Lent else s.own[p], s.dirs - {d})
  }

  lemma RetireInv(s: Vm, d: nat)
    requires Inv(s) && d in s.dirs && forall v: nat :: v < USER ==> !Entry(s.mem, d, v).present
    ensures Inv(Retire(s, d))
  {
    hide Entry;
    var t := Retire(s, d);
    forall x: nat | x in t.own ensures RoleRight(t, x) { assert RoleRight(s, x); }
  }

  /** freevm has returned the tables behind the first i directory entries, and not yet those behind the rest. */
  ghost predicate Returning(s: Vm, t: Vm, d: nat, i: nat) {
    && Inv(s) && Inv(t) && d in s.dirs && i <= NENT && t.dirs == s.dirs - {d} && t.mem[d] == s.mem[d]
    && (forall p: nat :: p in s.own && !OfSpace(p, s.own[p], d) ==> Has(t.own, p, s.own[p]) && t.mem[p] == s.mem[p])
    && (forall p: nat :: p in t.own ==>
          p in s.own && (OfSpace(p, s.own[p], d) ==>
            t.own[p] == Lent && (p == d || (s.own[p].Table? && s.own[p].i >= i))))
    && d in t.own && (forall k: nat :: i <= k < NENT && s.mem[d][k].present ==> s.mem[d][k].page in t.own)
  }

  /** The pages of d, and no others, have left their use; so they are free. */
  ghost predicate Freed(s: Vm, t: Vm, d: nat) {
    && Inv(s) && Inv(t) && d in s.dirs && t.dirs == s.dirs - {d}
    && (forall p: nat :: p in s.own && !OfSpace(p, s.own[p], d) ==> Has(t.own, p, s.own[p]) && t.mem[p] == s.mem[p])
    && (forall p: nat :: p in s.own && OfSpace(p, s.own[p], d) ==> p in t.free)
    && (forall p: nat :: p in s.free ==> p in t.free)
    && (forall p: nat :: p in t.own ==> p in s.own)
  }

  lemma ReturnStart(s: Vm, d: nat)
    requires Inv(s) && d in s.dirs && forall v: nat :: v < USER ==> !Entry(s.mem, d, v).present
    ensures Returning(s, Retire(s, d), d, 0)
  {
    hide Entry;
    RetireInv(s, d);
    forall p: nat | p in s.own ensures RoleRight(s, p) {}
    assert Has(s.own, d, Dir);
  }

  lemma ReturnNext(s: Vm, t: Vm, d: nat, i: nat)
    requires Returning(s, t, d, i) && i < NENT
    ensures !s.mem[d][i].present ==> Returning(s, t, d, i + 1)
    ensures s.mem[d][i].present ==>
      && Has(t.own, s.mem[d][i].page, Lent) && s.mem[d][i].page < |t.mem|
      && Returning(s, Give(t, s.mem[d][i].page), d, i + 1)
  {
    hide Entry;
    forall p: nat | p in s.own ensures RoleRight(s, p) {}
    if s.mem[d][i].present {
      var x := s.mem[d][i].page;
      assert Has(s.own, x, Table(d, i)) && Has(s.own, d, Dir);
      GiveInv(t, x);
      ReturnOthers(s, t, Give(t, x), d, i, x);
    }
  }

  lemma ReturnOthers(s: Vm, t: Vm, u: Vm, d: nat, i: nat, x: nat)
    requires Returning(s, t, d, i) && i < NENT && Has(s.own, x, Table(d, i)) && x < |t.mem| && x != d
    requires s.mem[d][i].present && s.mem[d][i].page == x
    requires u == Give(t, x) && Inv(u)
    ensures Returning(s, u, d, i + 1)
  {
    hide Entry;
    forall k: nat | i < k < NENT && s.mem[d][k].present ensures s.mem[d][k].page in u.own { TablesDiffer(s, d, i, k); }
    forall p: nat | p in u.own && OfSpace(p, s.own[p], d) && p != d ensures s.own[p].i >= i + 1 { SlotOf(s, d, p); }
  }

  lemma TablesDiffer(s: Vm, d: nat, i: nat, k: nat)
    requires Inv(s) && d in s.dirs && i < k < NENT && s.mem[d][i].present && s.mem[d][k].present
    ensures s.mem[d][i].page != s.mem[d][k].page
  {
    hide Entry;
    assert Has(s.own, s.mem[d][i].page, Table(d, i)) && Has(s.own, s.mem[d][k].page, Table(d, k));
  }

  lemma SlotOf(s: Vm, d: nat, p: nat)
    requires Inv(s) && p in s.own && s.own[p].Table? && s.own[p].d == d
    ensures d < |s.mem| && s.own[p].i < NENT && s.mem[d][s.own[p].i].page == p
  {
    hide Entry;
    assert RoleRight(s, p);
  }

  lemma ReturnEnd(s: Vm, t: Vm, d: nat)
    requires Returning(s, t, d, NENT)
    ensures Has(t.own, d, Lent) && d < |t.mem| && Freed(s, Give(t, d), d)
  {
    hide Entry;
    GiveInv(t, d);
    assert Has(s.own, d, Dir);
    forall p: nat | p in s.own ensures RoleRight(s, p) {}
  }
}
