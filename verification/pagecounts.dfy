/**
  How many pages an address space takes: its directory, its tables and its user
  pages, each exactly once.
 */
module PageCounts {
  import opened Seqs
  import opened PageTables

  /** The directory entries of d that have a table. */
  ghost function Tables(s: Vm, d: nat): set<nat>
    requires d < |s.mem|
  {
    set i: nat | i < NENT && s.mem[d][i].present
  }

  /** The user pages that d maps. */
  ghost function Users(s: Vm, d: nat): set<nat>
    requires d < |s.mem|
  {
    set v: nat | v < USER && Entry(s.mem, d, v).present
  }

  /** The pages in use that are not part of space d. */
  ghost function Others(own: map<nat, Role>, d: nat): set<nat> {
    set p | p in own && !OfSpace(p, own[p], d)
  }

  ghost function TablePages(own: map<nat, Role>, d: nat): set<nat> {
    set p | p in own && own[p].Table? && own[p].d == d
  }

  ghost function UserPages(own: map<nat, Role>, d: nat): set<nat> {
    set p | p in own && own[p].User? && own[p].d == d
  }

  lemma {:induction false} SameSize(a: set<nat>, f: map<nat, nat>)
    requires a <= f.Keys && forall x, y :: x in a && y in a && x != y ==> f[x] != f[y]
    ensures |set x | x in a :: f[x]| == |a|
  {
    if a != {} {
      var x :| x in a;
      SameSize(a - {x}, f);
      assert (set y | y in a :: f[y]) == (set y | y in a - {x} :: f[y]) + {f[x]};
    }
  }

  lemma TableCount(s: Vm, d: nat)
    requires Inv(s) && d in s.dirs && d < |s.mem|
    ensures |TablePages(s.own, d)| == |Tables(s, d)|
  {
    hide Entry;
    var f := map i | i in Tables(s, d) :: s.mem[d][i].page;
    forall i | i in Tables(s, d) ensures Has(s.own, f[i], Table(d, i)) {}
    SameSize(Tables(s, d), f);
    forall p | p in TablePages(s.own, d) ensures p in set i | i in Tables(s, d) :: f[i] {
      assert RoleRight(s, p);
      assert s.own[p].i in Tables(s, d) && f[s.own[p].i] == p;
    }
    assert TablePages(s.own, d) == set i | i in Tables(s, d) :: f[i];
  }

  lemma UserCount(s: Vm, d: nat)
    requires Inv(s) && d in s.dirs && d < |s.mem|
    ensures |UserPages(s.own, d)| == |Users(s, d)|
  {
    hide Entry;
    var f := map v | v in Users(s, d) :: Entry(s.mem, d, v).page;
    forall v | v in Users(s, d) ensures Has(s.own, f[v], User(d, v)) {}
    SameSize(Users(s, d), f);
    forall p | p in UserPages(s.own, d) ensures p in set v | v in Users(s, d) :: f[v] {
      assert RoleRight(s, p);
      assert s.own[p].v in Users(s, d) && f[s.own[p].v] == p;
    }
    assert UserPages(s.own, d) == set v | v in Users(s, d) :: f[v];
  }

  lemma Join(a: set<nat>, b: set<nat>)
    requires a !! b
    ensures |a + b| == |a| + |b|
  {
  }

  lemma OwnParts(own: map<nat, Role>, d: nat)
    requires Has(own, d, Dir)
    ensures |own.Keys| == |Others(own, d)| + 1 + |TablePages(own, d)| + |UserPages(own, d)|
  {
    var a, b, c := Others(own, d), TablePages(own, d), UserPages(own, d);
    assert own.Keys == a + {d} + b + c;
    Join(a, {d});
    Join(a + {d}, b);
    Join(a + {d} + b, c);
  }

  /** The pages in use: those of others, and of d its directory, tables and user pages. */
  lemma SpaceCount(s: Vm, d: nat)
    requires Inv(s) && d in s.dirs && d < |s.mem|
    ensures |s.own.Keys| == |Others(s.own, d)| + 1 + |Tables(s, d)| + |Users(s, d)|
  {
    hide Entry, Tables, Users, Others, TablePages, UserPages;
    TableCount(s, d);
    UserCount(s, d);
    OwnParts(s.own, d);
  }

  /** Free and used pages together are always the same. */
  lemma PoolCount(s: Vm, t: Vm)
    requires Inv(s) && Inv(t)
    ensures |s.free| + |s.own.Keys| == |t.free| + |t.own.Keys|
  {
    PoolIs(s);
    PoolIs(t);
  }

  lemma PoolIs(s: Vm)
    requires Inv(s)
    ensures |s.free| + |s.own.Keys| == |Span(FIRST, LAST)|
  {
    hide Entry, Span, Inv;
    InPool(s);
    ElementsCount(s.free);
    var free := Elements(s.free);
    assert Span(FIRST, LAST) == free + s.own.Keys;
    Join(free, s.own.Keys);
  }

  lemma InPool(s: Vm)
    requires Inv(s)
    ensures NoDup(s.free)
    ensures forall p: nat :: FIRST <= p < LAST <==> p in s.free || p in s.own
    ensures forall p: nat :: p in s.free ==> p !in s.own
  {
    hide Entry;
    forall p: nat | p in s.own ensures FIRST <= p < LAST { assert RoleRight(s, p); }
  }

  // ---- the tables that a range of pages needs ----

  ghost function TablesOf(lo: nat, hi: nat): set<nat> {
    set v: nat | lo <= v < hi :: v / NENT
  }

  /** From s to t, directory d gained exactly the tables for pages lo to hi - 1 that it did not have. */
  ghost predicate Gained(s: Vm, t: Vm, d: nat, lo: nat, hi: nat) {
    d < |s.mem| == |t.mem| && Tables(t, d) == Tables(s, d) + TablesOf(lo, hi)
  }

  lemma TablesOfNext(lo: nat, hi: nat)
    requires lo <= hi
    ensures TablesOf(lo, lo) == {} && TablesOf(lo, hi + 1) == TablesOf(lo, hi) + {hi / NENT}
  {
    assert hi / NENT in TablesOf(lo, hi + 1);
    forall i | i in TablesOf(lo, hi) ensures i in TablesOf(lo, hi + 1) {}
  }

  lemma GainedNone(s: Vm, t: Vm, d: nat, lo: nat)
    requires d < |s.mem| == |t.mem| && Tables(t, d) == Tables(s, d)
    ensures Gained(s, t, d, lo, lo)
  {
    TablesOfNext(lo, lo);
  }

  lemma GainedOne(s: Vm, t: Vm, d: nat, v: nat)
    requires d < |s.mem| == |t.mem| && v < VPAGES && t.mem[d][v / NENT].present
    requires forall i: nat :: i < NENT && i != v / NENT ==> t.mem[d][i].present == s.mem[d][i].present
    ensures Gained(s, t, d, v, v + 1)
  {
    TablesOfNext(v, v);
    forall i: nat ensures i in Tables(t, d) <==> i in Tables(s, d) + {v / NENT} {}
  }

  lemma GainedNext(s: Vm, t: Vm, u: Vm, d: nat, lo: nat, c: nat)
    requires Gained(s, t, d, lo, c) && Gained(t, u, d, c, c + 1) && lo <= c
    ensures Gained(s, u, d, lo, c + 1) && d < |s.mem| == |u.mem|
  {
    hide TablesOf, Tables;
    TablesOfNext(lo, c);
    TablesOfNext(c, c);
  }

  lemma TablesOfWithin(lo: nat, c: nat, hi: nat)
    requires lo <= c < hi
    ensures TablesOf(lo, c) <= TablesOf(lo, hi) && c / NENT in TablesOf(lo, hi)
  {
  }

  /** The first n pages need a table for every 1024. */
  lemma TablesOfFirst(n: nat)
    ensures TablesOf(0, n) == Span(0, (n + NENT - 1) / NENT)
    ensures |TablesOf(0, n)| == (n + NENT - 1) / NENT
    ensures n / NENT !in TablesOf(0, n) ==> n % NENT == 0
  {
    forall i: nat ensures i in TablesOf(0, n) <==> i < (n + NENT - 1) / NENT {
      if i < (n + NENT - 1) / NENT { assert i * NENT / NENT == i && i * NENT < n; }
    }
    assert n % NENT != 0 ==> (n - 1) / NENT == n / NENT;
  }
}
