/** What programs see of their memory: loads and stores through the page tables. */
module AddressSpaces {
  import opened PageTables
  import opened VirtualMemory

  datatype Seen = Fault | Word(w: Pte)

  /** What a load from user address va gives in the address space of directory d. */
  ghost function See(t: Vm, d: nat, va: nat): Seen
    requires d < |t.mem| && va < KERNBASE
  {
    var e := Entry(t.mem, d, va / PGSIZE);
    if e.present && e.page < |t.mem| then Word(t.mem[e.page][va % PGSIZE / 4]) else Fault
  }

  /** A store of one word. */
  ghost function Put(t: Vm, d: nat, va: nat, w: Pte): Vm
    requires d < |t.mem| && va < KERNBASE && See(t, d, va).Word?
  {
    var p := Entry(t.mem, d, va / PGSIZE).page;
    t.(mem := t.mem[p := t.mem[p][va % PGSIZE / 4 := w]])
  }

  lemma DirKnown(s: Vm, d: nat)
    requires Inv(s) && d in s.dirs
    ensures d < |s.mem|
  {
  }

  /** Every entry of c, and the user pages behind its user entries, are the same in s and t. */
  ghost predicate SameView(s: Vm, t: Vm, c: nat) {
    && c < |s.mem| == |t.mem|
    && forall va: nat :: va < KERNBASE ==> See(t, c, va) == See(s, c, va)
  }

  /** If the pages of space c keep their content, so does all that c sees. */
  lemma KeptSees(s: Vm, t: Vm, c: nat)
    requires Inv(s) && c in s.dirs && |t.mem| == |s.mem|
    requires forall p: nat :: p in s.own && p < |s.mem| && OfSpace(p, s.own[p], c) ==> t.mem[p] == s.mem[p]
    ensures SameView(s, t, c)
  {
    DirKnown(s, c);
    forall va: nat | va < KERNBASE ensures See(t, c, va) == See(s, c, va) { KeptSeesAt(s, t, c, va); }
  }

  lemma KeptSeesAt(s: Vm, t: Vm, c: nat, va: nat)
    requires Inv(s) && c in s.dirs && |t.mem| == |s.mem| && va < KERNBASE
    requires forall p: nat :: p in s.own && p < |s.mem| && OfSpace(p, s.own[p], c) ==> t.mem[p] == s.mem[p]
    ensures c < |s.mem| && See(t, c, va) == See(s, c, va)
  {
    assert Has(s.own, c, Dir);
    var v := va / PGSIZE;
    var e := s.mem[c][v / NENT];
    assert e.present ==> Has(s.own, e.page, Table(c, v / NENT));
    assert Entry(t.mem, c, v) == Entry(s.mem, c, v);
    var f := Entry(s.mem, c, v);
    assert f.present ==> Has(s.own, f.page, User(c, v));
  }

  /** An operation on space d leaves the view of every other space alone. */
  lemma OthersSee(s: Vm, t: Vm, d: nat, lo: nat, hi: nat, c: nat)
    requires Changed(s, t, d, lo, hi, {}) && c in s.dirs && c != d
    ensures SameView(s, t, c)
  {
    hide Entry, SameView, Inv;
    KeptSees(s, t, c);
  }

  /** And its own view outside the range. */
  lemma OwnSees(s: Vm, t: Vm, d: nat, lo: nat, hi: nat, va: nat)
    requires Changed(s, t, d, lo, hi, {}) && va < KERNBASE && !(lo <= va / PGSIZE < hi)
    ensures d < |s.mem| == |t.mem| && See(t, d, va) == See(s, d, va)
  {
    hide Pool;
    var v := va / PGSIZE;
    var e := Entry(s.mem, d, v);
    assert e.present ==> Has(s.own, e.page, User(d, v));
  }

  /**
    A grown process sees what it saw below its old end, rounded up to a page, and
    zeros from there to its new end; nobody else sees a difference.
   */
  lemma GrownSees(s: Vm, t: Vm, d: nat, oldsz: nat, newsz: nat, va: nat)
    requires oldsz <= newsz < KERNBASE && Growing(s, t, d, RoundUp(oldsz) / PGSIZE, RoundUp(newsz) / PGSIZE)
    requires va < newsz
    ensures d < |s.mem| == |t.mem|
    ensures See(t, d, va) == if va < RoundUp(oldsz) then See(s, d, va) else Word(NoPte)
    ensures forall c: nat :: c in s.dirs && c != d ==> SameView(s, t, c)
  {
    hide Entry, SameView, Inv;
    var lo, hi := RoundUp(oldsz) / PGSIZE, RoundUp(newsz) / PGSIZE;
    forall c: nat | c in s.dirs && c != d ensures SameView(s, t, c) { OthersSee(s, t, d, lo, hi, c); }
    if va / PGSIZE < lo {
      OwnSees(s, t, d, lo, hi, va);
    } else {
      assert FreshAt(t, d, va / PGSIZE);
    }
  }

  /** A shrunk process sees what it saw below its new end, rounded up to a page, and nothing above to its old one. */
  lemma ShrunkSees(s: Vm, t: Vm, d: nat, oldsz: nat, newsz: nat, va: nat)
    requires newsz < oldsz <= KERNBASE && Unmapped(s, t, d, RoundUp(newsz) / PGSIZE, RoundUp(oldsz) / PGSIZE)
    requires va < oldsz
    ensures d < |s.mem| == |t.mem|
    ensures See(t, d, va) == if va < RoundUp(newsz) then See(s, d, va) else Fault
    ensures forall c: nat :: c in s.dirs && c != d ==> SameView(s, t, c)
  {
    hide Entry, SameView, Inv;
    var lo, hi := RoundUp(newsz) / PGSIZE, RoundUp(oldsz) / PGSIZE;
    forall c: nat | c in s.dirs && c != d ensures SameView(s, t, c) { OthersSee(s, t, d, lo, hi, c); }
    if va / PGSIZE < lo { OwnSees(s, t, d, lo, hi, va); }
  }

  /** A new space changes nobody's view. */
  lemma BornSees(s: Vm, t: Vm, d: nat, c: nat)
    requires Born(s, t, d) && c in s.dirs
    ensures SameView(s, t, c)
  {
    hide Entry, SameView;
    KeptSees(s, t, c);
  }

  /** The child of fork sees what its parent sees up to its size, and nothing above; nobody sees a difference. */
  lemma ForkedSees(s: Vm, t: Vm, src: nat, d: nat, sz: nat, va: nat)
    requires sz <= KERNBASE && va < KERNBASE && src in s.dirs
    requires Born(s, t, d) && Copied(s, t, src, d, RoundUp(sz) / PGSIZE)
    ensures src < |s.mem| == |t.mem| && d < |t.mem| && d != src
    ensures See(t, d, va) == if va < RoundUp(sz) then See(s, src, va) else Fault
    ensures forall c: nat :: c in s.dirs ==> SameView(s, t, c)
  {
    hide Entry, SameView, Trees, Roles;
    var n := RoundUp(sz) / PGSIZE;
    forall c: nat | c in s.dirs ensures SameView(s, t, c) { BornSees(s, t, d, c); }
    var v := va / PGSIZE;
    if v < n { assert CopyAt(t, d, v, Entry(s.mem, src, v), s.mem[Entry(s.mem, src, v).page]); }
  }

  /**
    Isolation: in every state that satisfies the invariant, a store through one space
    changes that word of that space, and nothing else that any space sees.
   */
  lemma Isolation(t: Vm, d: nat, va: nat, w: Pte, c: nat, vb: nat)
    requires Inv(t) && d in t.dirs && c in t.dirs && va < KERNBASE && vb < KERNBASE && va % 4 == 0 && vb % 4 == 0
    requires d < |t.mem| && See(t, d, va).Word?
    ensures c < |t.mem| && c < |Put(t, d, va, w).mem|
    ensures See(Put(t, d, va, w), c, vb) == if c == d && vb == va then Word(w) else See(t, c, vb)
  {
    var u := Put(t, d, va, w);
    var p := Entry(t.mem, d, va / PGSIZE).page;
    assert Has(t.own, p, User(d, va / PGSIZE));
    assert Has(t.own, c, Dir);
    var v := vb / PGSIZE;
    var e := t.mem[c][v / NENT];
    assert e.present ==> Has(t.own, e.page, Table(c, v / NENT));
    assert Entry(u.mem, c, v) == Entry(t.mem, c, v);
    var f := Entry(t.mem, c, v);
    assert f.present ==> Has(t.own, f.page, User(c, v));
    assert vb == PGSIZE * v + vb % PGSIZE && va == PGSIZE * (va / PGSIZE) + va % PGSIZE;
    assert vb % PGSIZE % 4 == 0 && va % PGSIZE % 4 == 0;
  }
}
