/**
  Who owns which block.  A state of the file system is the disk as bread shows
  it, the inodes as the kernel sees them (the in-memory copy where there is one),
  a map from every owned block to the inode and slot that hold it, and the blocks
  passed to log_write so far.
 */
module BlockOwners {
  import opened Blocks
  import opened FsFormat
  import opened Seqs

  type Owners = map<nat, (nat, nat)>

  datatype Fs = Fs(disk: Disk, ino: seq<Inode>, owner: Owners, logged: set<nat>)

  /** Slot k of inode i, and nothing else, holds block a. */
  ghost predicate Held(owner: Owners, a: nat, i: nat, k: nat) {
    a in owner && owner[a] == (i, k)
  }

  /** The addresses in the inodes and the owner map agree; in particular no address occurs twice. */
  ghost predicate Own(sb: Super, s: Fs) {
    && |s.ino| == sb.ninodes
    && (forall i: nat, k: nat :: i < |s.ino| && k < SLOTS && Addr(s.disk, s.ino[i], k) != 0
          ==> Held(s.owner, Addr(s.disk, s.ino[i], k), i, k))
    && (forall b: nat :: b in s.owner ==> OwnedRight(sb, s, b))
  }

  ghost predicate OwnedRight(sb: Super, s: Fs, b: nat)
    requires b in s.owner
  {
    var (i, k) := s.owner[b];
    sb.nmeta <= b < sb.size && i < |s.ino| && k < SLOTS && Addr(s.disk, s.ino[i], k) == b
  }

  /** The bitmap marks the metadata blocks and those in u. */
  ghost predicate Bits(sb: Super, disk: Disk, u: set<nat>)
    requires OnDisk(sb, disk)
  {
    forall b: nat :: b < sb.size ==> (Used(sb, disk, b) <==> b < sb.nmeta || b in u)
  }

  ghost predicate Conserved(sb: Super, s: Fs) {
    OnDisk(sb, s.disk) && |s.ino| == sb.ninodes && Own(sb, s) && Bits(sb, s.disk, s.owner.Keys)
  }

  /**
    Conservation, read off the inodes: a block is marked in use exactly if it is
    metadata or held by some inode; it is then held by one slot of one inode only,
    and is a data block of the disk.
   */
  lemma ConservationMeans(sb: Super, s: Fs)
    requires Conserved(sb, s)
    ensures forall b: nat :: b < sb.size ==> (Used(sb, s.disk, b) <==> b < sb.nmeta || Somewhere(s, b))
    ensures forall b: nat, i: nat, k: nat, j: nat, l: nat :: b > 0 && HeldBy(s, b, i, k) && HeldBy(s, b, j, l)
              ==> i == j && k == l && sb.nmeta <= b < sb.size
  {
    hide Addr, Used;
    forall b: nat | b < sb.size ensures Used(sb, s.disk, b) <==> b < sb.nmeta || Somewhere(s, b) {
      if b in s.owner { assert OwnedRight(sb, s, b) && HeldBy(s, b, s.owner[b].0, s.owner[b].1); }
    }
    forall b: nat, i: nat, k: nat, j: nat, l: nat | b > 0 && HeldBy(s, b, i, k) && HeldBy(s, b, j, l)
      ensures i == j && k == l && sb.nmeta <= b < sb.size
    {
      assert Held(s.owner, b, i, k) && OwnedRight(sb, s, b);
    }
  }

  ghost predicate HeldBy(s: Fs, b: nat, i: nat, k: nat) {
    i < |s.ino| && k < SLOTS && Addr(s.disk, s.ino[i], k) == b
  }

  ghost predicate Somewhere(s: Fs, b: nat) {
    b > 0 && exists i: nat, k: nat :: HeldBy(s, b, i, k)
  }

  /** From s to t only slot k0 of inode i0 changes, from 0 to b. */
  ghost predicate OneMore(s: Fs, t: Fs, i0: nat, k0: nat, b: Word) {
    && |t.ino| == |s.ino| && i0 < |s.ino| && k0 < SLOTS && Addr(s.disk, s.ino[i0], k0) == 0
    && forall i: nat, k: nat :: i < |s.ino| && k < SLOTS
         ==> Addr(t.disk, t.ino[i], k) == if i == i0 && k == k0 then b else Addr(s.disk, s.ino[i], k)
  }

  lemma Attach(sb: Super, s: Fs, t: Fs, i0: nat, k0: nat, b: Word)
    requires Layout(sb) && Own(sb, s) && OneMore(s, t, i0, k0, b) && b !in s.owner && sb.nmeta <= b < sb.size
    requires t.owner == s.owner[b := (i0, k0)]
    ensures Own(sb, t)
  {
    hide Addr;
    forall i: nat, k: nat | i < |t.ino| && k < SLOTS && Addr(t.disk, t.ino[i], k) != 0
      ensures Held(t.owner, Addr(t.disk, t.ino[i], k), i, k)
    {
      if !(i == i0 && k == k0) { assert Held(s.owner, Addr(s.disk, s.ino[i], k), i, k); }
    }
    forall c: nat | c in t.owner ensures OwnedRight(sb, t, c) {
      if c != b {
        assert OwnedRight(sb, s, c);
        var (i, k) := s.owner[c];
        assert Addr(t.disk, t.ino[i], k) == Addr(s.disk, s.ino[i], k) == c;
      }
    }
  }

  ghost predicate SameAddrs(s: Fs, t: Fs) {
    && |t.ino| == |s.ino|
    && forall i: nat, k: nat :: i < |s.ino| && k < SLOTS ==> Addr(t.disk, t.ino[i], k) == Addr(s.disk, s.ino[i], k)
  }

  /** Changing other blocks than indirect ones changes no address. */
  lemma AddrFrame(sb: Super, s: Fs, t: Fs)
    requires OnDisk(sb, s.disk) && Own(sb, s) && |t.disk| == |s.disk| && t.ino == s.ino
    requires forall b: nat :: b in s.owner && s.owner[b].1 == NDIRECT && b < |s.disk| ==> t.disk[b] == s.disk[b]
    ensures SameAddrs(s, t)
  {
    hide GetWord;
    forall i: nat, k: nat | i < |s.ino| && k < SLOTS ensures Addr(t.disk, t.ino[i], k) == Addr(s.disk, s.ino[i], k) {
      var a := Addr(s.disk, s.ino[i], NDIRECT);
      if a != 0 { assert Held(s.owner, a, i, NDIRECT); }
    }
  }

  lemma OwnFrame(sb: Super, s: Fs, t: Fs)
    requires OnDisk(sb, s.disk) && Own(sb, s) && |t.disk| == |s.disk| && t.ino == s.ino && t.owner == s.owner
    requires forall b: nat :: b in s.owner && s.owner[b].1 == NDIRECT && b < |s.disk| ==> t.disk[b] == s.disk[b]
    ensures Own(sb, t)
  {
    hide Addr;
    AddrFrame(sb, s, t);
    forall b: nat | b in t.owner ensures OwnedRight(sb, t, b) { assert OwnedRight(sb, s, b); }
  }

  // ---- balloc and bmap ----

  /** What balloc leaves: block b marked, zeroed, and both blocks logged. */
  ghost function Taken(sb: Super, s: Fs, b: nat): Fs
    requires OnDisk(sb, s.disk) && b < sb.size
  {
    Fs(Marked(sb, s.disk, b, true)[b := ZeroBlock()], s.ino, s.owner, s.logged + {BitBlock(sb, b), b})
  }

  /** A block that balloc returns is no one's, and taking it disturbs nothing. */
  lemma TakenFresh(sb: Super, s: Fs, b: nat)
    requires Conserved(sb, s) && b < sb.size && !Used(sb, s.disk, b)
    ensures var t := Taken(sb, s, b);
      && sb.nmeta <= b && b !in s.owner && t.disk[b] == ZeroBlock()
      && OnDisk(sb, t.disk) && Own(sb, t) && SameAddrs(s, t) && Bits(sb, t.disk, s.owner.Keys + {b})
      && (forall c: nat :: c < sb.size && c != b && c != BitBlock(sb, b) ==> t.disk[c] == s.disk[c])
      && sb.bmapstart <= BitBlock(sb, b) < sb.nmeta
  {
    hide Used, Addr;
    var t := Taken(sb, s, b);
    forall c: nat | c in s.owner ensures c >= sb.nmeta { assert OwnedRight(sb, s, c); }
    OwnFrame(sb, s, t);
    AddrFrame(sb, s, t);
    forall c: nat | c < sb.size ensures Used(sb, t.disk, c) <==> c < sb.nmeta || c in s.owner.Keys + {b} {
      MarkedUsed(sb, s.disk, b, true, c);
      UsedFrame(sb, Marked(sb, s.disk, b, true), t.disk, c);
    }
  }

  lemma UsedFrame(sb: Super, d: Disk, e: Disk, c: nat)
    requires OnDisk(sb, d) && |e| == |d| && c < sb.size
    requires forall x: nat :: sb.bmapstart <= x < sb.nmeta ==> e[x] == d[x]
    ensures Used(sb, d, c) <==> Used(sb, e, c)
  {
    hide Bit;
  }

  /** Slot k of the inode itself gets block b. */
  ghost function GiveDirect(s: Fs, i: nat, k: nat, b: Word): Fs
    requires i < |s.ino| && k <= NDIRECT
  {
    Fs(s.disk, s.ino[i := s.ino[i].(addrs := s.ino[i].addrs[k := b])], s.owner[b := (i, k)], s.logged)
  }

  /** Entry e of the inode's indirect block gets block b. */
  ghost function GiveEntry(s: Fs, i: nat, e: nat, b: Word): Fs
    requires i < |s.ino| && s.ino[i].addrs[NDIRECT] < |s.disk| && e < NINDIRECT
  {
    var at := s.ino[i].addrs[NDIRECT];
    Fs(s.disk[at := PutWord(s.disk[at], e, b)], s.ino, s.owner[b := (i, NDIRECT + 1 + e)], s.logged + {at})
  }

  lemma GiveDirectOwn(sb: Super, s: Fs, i: nat, k: nat, b: Word)
    requires OnDisk(sb, s.disk) && Own(sb, s) && i < |s.ino| && k <= NDIRECT && s.ino[i].addrs[k] == 0
    requires b !in s.owner && sb.nmeta <= b < sb.size && (k == NDIRECT ==> s.disk[b] == ZeroBlock())
    ensures Own(sb, GiveDirect(s, i, k, b)) && OneMore(s, GiveDirect(s, i, k, b), i, k, b)
  {
    hide GetWord, ZeroBlock;
    var t := GiveDirect(s, i, k, b);
    forall j: nat, l: nat | j < |s.ino| && l < SLOTS
      ensures Addr(t.disk, t.ino[j], l) == if j == i && l == k then b else Addr(s.disk, s.ino[j], l)
    {
      if j == i && k == NDIRECT && l > NDIRECT { ZeroWords(l - NDIRECT - 1); }
    }
    Attach(sb, s, t, i, k, b);
  }

  lemma GiveEntryOwn(sb: Super, s: Fs, i: nat, e: nat, b: Word)
    requires OnDisk(sb, s.disk) && Own(sb, s) && i < |s.ino| && e < NINDIRECT
    requires s.ino[i].addrs[NDIRECT] != 0 && Addr(s.disk, s.ino[i], NDIRECT + 1 + e) == 0
    requires b !in s.owner && sb.nmeta <= b < sb.size
    ensures sb.nmeta <= s.ino[i].addrs[NDIRECT] < sb.size && Held(s.owner, s.ino[i].addrs[NDIRECT], i, NDIRECT)
    ensures Own(sb, GiveEntry(s, i, e, b)) && OneMore(s, GiveEntry(s, i, e, b), i, NDIRECT + 1 + e, b)
  {
    hide GetWord, PutWord;
    var at := s.ino[i].addrs[NDIRECT];
    assert Addr(s.disk, s.ino[i], NDIRECT) == at && Held(s.owner, at, i, NDIRECT) && OwnedRight(sb, s, at);
    var t := GiveEntry(s, i, e, b);
    forall j: nat, l: nat | j < |s.ino| && l < SLOTS
      ensures Addr(t.disk, t.ino[j], l) == if j == i && l == NDIRECT + 1 + e then b else Addr(s.disk, s.ino[j], l)
    {
      var a := Addr(s.disk, s.ino[j], NDIRECT);
      if a != 0 { assert Held(s.owner, a, j, NDIRECT); }
    }
    Attach(sb, s, t, i, NDIRECT + 1 + e, b);
  }

  /**
    From s to t inode ip has only gained blocks: every owned block keeps its
    owner and, indirect blocks of ip apart, its content; so does everything
    below the bitmap.
   */
  ghost predicate Grown(sb: Super, s: Fs, t: Fs, ip: nat) {
    && |t.disk| == |s.disk| && ip < |s.ino| && |t.ino| == |s.ino|
    && t.ino == s.ino[ip := s.ino[ip].(addrs := t.ino[ip].addrs)]
    && (forall b: nat :: b in s.owner ==>
          && b in t.owner && t.owner[b] == s.owner[b]
          && (b < |s.disk| && s.owner[b] != (ip, NDIRECT) ==> t.disk[b] == s.disk[b]))
    && (forall b: nat :: b in t.owner && b !in s.owner ==> t.owner[b].0 == ip)
    && (forall c: nat :: c < sb.bmapstart && c < |s.disk| ==> t.disk[c] == s.disk[c])
    && s.logged <= t.logged
  }

  lemma GrownTrans(sb: Super, s: Fs, t: Fs, u: Fs, ip: nat)
    requires Grown(sb, s, t, ip) && Grown(sb, t, u, ip)
    ensures Grown(sb, s, u, ip)
  {
  }

  /** What an inode had it keeps, and the other inodes have exactly what they had. */
  lemma GrownAddr(sb: Super, s: Fs, t: Fs, ip: nat, i: nat, k: nat)
    requires Layout(sb) && Own(sb, s) && Own(sb, t) && Grown(sb, s, t, ip) && i < |s.ino| && k < SLOTS
    ensures Addr(s.disk, s.ino[i], k) != 0 || i != ip ==> Addr(t.disk, t.ino[i], k) == Addr(s.disk, s.ino[i], k)
  {
    hide Addr;
    var a, a' := Addr(s.disk, s.ino[i], k), Addr(t.disk, t.ino[i], k);
    assert a' in s.owner ==> OwnedRight(sb, s, a');
    assert a' != 0 ==> Held(t.owner, a', i, k);
    if a != 0 { assert Held(s.owner, a, i, k) && OwnedRight(sb, t, a); }
  }

  lemma AllocDirect(sb: Super, s: Fs, ip: nat, k: nat, b: Word)
    requires Conserved(sb, s) && ip < |s.ino| && k <= NDIRECT && s.ino[ip].addrs[k] == 0
    requires b < sb.size && !Used(sb, s.disk, b)
    ensures var t := GiveDirect(Taken(sb, s, b), ip, k, b);
      && Conserved(sb, t) && Grown(sb, s, t, ip) && OneMore(s, t, ip, k, b) && t.disk[b] == ZeroBlock() && b != 0
      && t.logged == s.logged + {BitBlock(sb, b), b}
  {
    hide Addr, Used, Marked, Own;
    TakenFresh(sb, s, b);
    OwnedData(sb, s);
    GiveDirectOwn(sb, Taken(sb, s, b), ip, k, b);
  }

  lemma AllocEntry(sb: Super, s: Fs, ip: nat, e: nat, b: Word)
    requires Conserved(sb, s) && ip < |s.ino| && e < NINDIRECT
    requires s.ino[ip].addrs[NDIRECT] != 0 && Addr(s.disk, s.ino[ip], NDIRECT + 1 + e) == 0
    requires b < sb.size && !Used(sb, s.disk, b)
    ensures s.ino[ip].addrs[NDIRECT] < sb.size
    ensures var t := GiveEntry(Taken(sb, s, b), ip, e, b);
      && Conserved(sb, t) && Grown(sb, s, t, ip) && OneMore(s, t, ip, NDIRECT + 1 + e, b)
      && t.disk[b] == ZeroBlock() && b != 0
      && t.logged == s.logged + {BitBlock(sb, b), b, s.ino[ip].addrs[NDIRECT]}
      && Taken(sb, s, b).disk[s.ino[ip].addrs[NDIRECT]] == s.disk[s.ino[ip].addrs[NDIRECT]]
  {
    hide Used, Marked, GetWord, PutWord, Own, Bits;
    TakenFresh(sb, s, b);
    var at := s.ino[ip].addrs[NDIRECT];
    IndirectHeld(sb, s, ip);
    var u := Taken(sb, s, b);
    GiveEntryOwn(sb, u, ip, e, b);
    var t := GiveEntry(u, ip, e, b);
    BitsFrame(sb, u.disk, t.disk, s.owner.Keys + {b});
    assert t.owner.Keys == s.owner.Keys + {b};
    OwnedData(sb, s);
  }

  lemma IndirectHeld(sb: Super, s: Fs, ip: nat)
    requires Own(sb, s) && ip < |s.ino| && s.ino[ip].addrs[NDIRECT] != 0
    ensures var at := s.ino[ip].addrs[NDIRECT]; Held(s.owner, at, ip, NDIRECT) && sb.nmeta <= at < sb.size
  {
    var at := s.ino[ip].addrs[NDIRECT];
    assert Held(s.owner, Addr(s.disk, s.ino[ip], NDIRECT), ip, NDIRECT) && OwnedRight(sb, s, at);
  }

  lemma OwnedData(sb: Super, s: Fs)
    requires Own(sb, s)
    ensures forall c: nat :: c in s.owner ==> sb.nmeta <= c < sb.size
  {
    forall c: nat | c in s.owner ensures sb.nmeta <= c < sb.size { assert OwnedRight(sb, s, c); }
  }

  lemma BitsFrame(sb: Super, d: Disk, e: Disk, u: set<nat>)
    requires OnDisk(sb, d) && |e| == |d| && Bits(sb, d, u)
    requires forall x: nat :: sb.bmapstart <= x < sb.nmeta ==> e[x] == d[x]
    ensures Bits(sb, e, u)
  {
    hide Used;
    forall c: nat | c < sb.size ensures Used(sb, e, c) <==> c < sb.nmeta || c in u { UsedFrame(sb, d, e, c); }
  }

  ghost predicate IndirectLogged(s: Fs, ip: nat)
    requires ip < |s.ino|
  {
    s.ino[ip].addrs[NDIRECT] != 0 && s.ino[ip].addrs[NDIRECT] in s.logged
  }

  /**
    What a call bmap(ip, bn) that returns addr has done.  If the block was there,
    nothing; otherwise it is new and zero, and the call logs the block and a bitmap
    block, and once per transaction an indirect block and perhaps its bitmap block.
   */
  ghost predicate Mapped(sb: Super, s: Fs, t: Fs, ip: nat, bn: nat, addr: Word) {
    && bn < MAXFILE && Grown(sb, s, t, ip)
    && addr != 0 && addr == Addr(t.disk, t.ino[ip], DataSlot(bn))
    && (forall k: nat :: k < SLOTS && k != DataSlot(bn) && k != NDIRECT
          ==> Addr(t.disk, t.ino[ip], k) == Addr(s.disk, s.ino[ip], k))
    && if Addr(s.disk, s.ino[ip], DataSlot(bn)) != 0 then t == s
       else
         && addr < |t.disk| && t.disk[addr] == ZeroBlock() && addr in t.logged
         && (bn >= NDIRECT ==> IndirectLogged(t, ip))
         && |t.logged| <= |s.logged| + 2 + if bn >= NDIRECT && !IndirectLogged(s, ip) then 2 else 0
  }

  lemma MappedAlready(sb: Super, s: Fs, ip: nat, bn: nat)
    requires ip < |s.ino| && bn < MAXFILE && Addr(s.disk, s.ino[ip], DataSlot(bn)) != 0
    ensures Mapped(sb, s, s, ip, bn, Addr(s.disk, s.ino[ip], DataSlot(bn)))
  {
    hide Addr;
  }

  lemma MappedDirect(sb: Super, s: Fs, ip: nat, bn: nat, b: Word)
    requires Conserved(sb, s) && ip < |s.ino| && bn < NDIRECT && s.ino[ip].addrs[bn] == 0
    requires b < sb.size && !Used(sb, s.disk, b)
    ensures var t := GiveDirect(Taken(sb, s, b), ip, bn, b); Conserved(sb, t) && Mapped(sb, s, t, ip, bn, b)
  {
    hide Own, Bits, Used, Marked, Grown;
    AllocDirect(sb, s, ip, bn, b);
    CardAdd(s.logged, BitBlock(sb, b));
    CardAdd(s.logged + {BitBlock(sb, b)}, b);
  }

  lemma MappedEntry(sb: Super, s: Fs, ip: nat, bn: nat, b: Word)
    requires Conserved(sb, s) && ip < |s.ino| && NDIRECT <= bn < MAXFILE && s.ino[ip].addrs[NDIRECT] != 0
    requires Addr(s.disk, s.ino[ip], DataSlot(bn)) == 0 && b < sb.size && !Used(sb, s.disk, b)
    ensures s.ino[ip].addrs[NDIRECT] < sb.size
    ensures var t := GiveEntry(Taken(sb, s, b), ip, bn - NDIRECT, b);
      && Conserved(sb, t) && Mapped(sb, s, t, ip, bn, b)
      && |t.logged| <= |s.logged| + if IndirectLogged(s, ip) then 2 else 3
  {
    hide Own, Bits, Used, Marked, Grown, PutWord, Addr, ZeroBlock;
    AllocEntry(sb, s, ip, bn - NDIRECT, b);
    CardAdd3(s.logged, BitBlock(sb, b), b, s.ino[ip].addrs[NDIRECT]);
  }

  lemma CardAdd3(x: set<nat>, a: nat, b: nat, c: nat)
    ensures |x + {a, b, c}| <= |x| + if c in x then 2 else 3
  {
    CardAdd(x, c);
    CardAdd(x + {c}, a);
    CardAdd(x + {c} + {a}, b);
    assert x + {a, b, c} == x + {c} + {a} + {b};
  }

  /** bmap of a block behind an indirect block that had to be allocated first. */
  lemma MappedThrough(sb: Super, s: Fs, t: Fs, ip: nat, bn: nat, b: Word, addr: Word)
    requires Conserved(sb, s) && ip < |s.ino| && NDIRECT <= bn < MAXFILE && s.ino[ip].addrs[NDIRECT] == 0
    requires b < sb.size && !Used(sb, s.disk, b)
    requires Mapped(sb, GiveDirect(Taken(sb, s, b), ip, NDIRECT, b), t, ip, bn, addr)
    ensures Mapped(sb, s, t, ip, bn, addr)
  {
    hide Own, Bits, Used, Marked, Grown, GetWord;
    AllocDirect(sb, s, ip, NDIRECT, b);
    var u := GiveDirect(Taken(sb, s, b), ip, NDIRECT, b);
    CardAdd(s.logged, BitBlock(sb, b));
    CardAdd(s.logged + {BitBlock(sb, b)}, b);
    assert u.logged == s.logged + {BitBlock(sb, b)} + {b};
    assert Addr(u.disk, u.ino[ip], DataSlot(bn)) == Addr(s.disk, s.ino[ip], DataSlot(bn)) == 0;
    GrownTrans(sb, s, u, t, ip);
  }

  // ---- what a transaction has logged ----

  /** Every block that differs from base, the disk at begin_op, has been logged, and none of the log's own. */
  ghost predicate Covered(sb: Super, base: Disk, disk: Disk, logged: set<nat>) {
    && |base| == |disk| == sb.size
    && (forall b: nat :: b < |disk| && disk[b] != base[b] ==> b in logged)
    && (forall b: nat :: b in logged ==> sb.inodestart <= b < sb.size)
  }

  lemma CoveredNext(sb: Super, base: Disk, disk: Disk, logged: set<nat>, b: nat, data: Block)
    requires Covered(sb, base, disk, logged) && sb.inodestart <= b < |disk|
    ensures Covered(sb, base, disk[b := data], logged + {b})
  {
  }

  // ---- bfree and itrunc ----

  lemma BitsLess(sb: Super, disk: Disk, u: set<nat>, a: nat)
    requires OnDisk(sb, disk) && Bits(sb, disk, u) && a in u && sb.nmeta <= a < sb.size
    ensures Used(sb, disk, a)
    ensures OnDisk(sb, Marked(sb, disk, a, false)) && Bits(sb, Marked(sb, disk, a, false), u - {a})
    ensures forall c: nat :: c < sb.size && !(sb.bmapstart <= c < sb.nmeta) ==> Marked(sb, disk, a, false)[c] == disk[c]
  {
    hide Used;
    var d := Marked(sb, disk, a, false);
    forall b: nat | b < sb.size ensures Used(sb, d, b) <==> b < sb.nmeta || b in u - {a} {
      MarkedUsed(sb, disk, a, false, b);
    }
  }

  /** The owners without the slots lo to hi - 1 of inode ip. */
  ghost function Rest(owner: Owners, ip: nat, lo: nat, hi: nat): Owners {
    map b | b in owner && !(owner[b].0 == ip && lo <= owner[b].1 < hi) :: owner[b]
  }

  /** The bitmap blocks of the blocks in slots lo to hi - 1 of inode ip. */
  ghost function BitsOf(sb: Super, owner: Owners, ip: nat, lo: nat, hi: nat): set<nat> {
    set b | b in owner && owner[b].0 == ip && lo <= owner[b].1 < hi :: BitBlock(sb, b)
  }

  lemma BitsOfNext(sb: Super, s: Fs, ip: nat, lo: nat, k: nat)
    requires Layout(sb) && Own(sb, s) && ip < |s.ino| && lo <= k < SLOTS
    ensures var a := Addr(s.disk, s.ino[ip], k);
      && BitsOf(sb, s.owner, ip, lo, lo) == {}
      && BitsOf(sb, s.owner, ip, lo, k + 1) == BitsOf(sb, s.owner, ip, lo, k) + if a == 0 then {} else {BitBlock(sb, a)}
  {
    hide Addr, BitBlock;
    var a := Addr(s.disk, s.ino[ip], k);
    forall b: nat | b in s.owner && s.owner[b] == (ip, k) ensures b == a && b > 0 { assert OwnedRight(sb, s, b); }
    if a != 0 { assert Held(s.owner, a, ip, k); }
  }

  lemma BitsOfSplit(sb: Super, owner: Owners, ip: nat, lo: nat, mid: nat, hi: nat)
    requires lo <= mid <= hi
    ensures BitsOf(sb, owner, ip, lo, hi) == BitsOf(sb, owner, ip, lo, mid) + BitsOf(sb, owner, ip, mid, hi)
    ensures BitsOf(sb, Rest(owner, ip, lo, mid), ip, mid, hi) == BitsOf(sb, owner, ip, mid, hi)
  {
    hide BitBlock;
    var small := Rest(owner, ip, lo, mid);
    forall b | b in owner && owner[b].0 == ip && mid <= owner[b].1 < hi ensures b in small && small[b] == owner[b] {}
  }

  /** What itrunc logs: one block for each bitmap block it touches, of which there are few, and the inode's. */
  lemma TruncCost(sb: Super, s: Fs, ip: nat)
    requires Conserved(sb, s) && ip < |s.ino|
    ensures var bits := BitsOf(sb, s.owner, ip, 0, SLOTS);
      |bits + {InodeBlock(sb, ip)}| == |bits| + 1 && |bits| <= sb.size / BPB + 1
  {
    var bits := BitsOf(sb, s.owner, ip, 0, SLOTS);
    OwnedData(sb, s);
    assert bits <= Span(sb.bmapstart, sb.bmapstart + sb.size / BPB + 1);
    CardinalityMono(bits, Span(sb.bmapstart, sb.bmapstart + sb.size / BPB + 1));
    CardAdd(bits, InodeBlock(sb, ip));
  }

  /** The inode without its first i addresses. */
  ghost function Cleared(d: Inode, i: nat): Inode
    requires i <= NDIRECT + 1
  {
    d.(addrs := seq(i, k => 0) + d.addrs[i..])
  }

  /** itrunc has freed the first i direct blocks. */
  ghost predicate Trimming(sb: Super, s: Fs, t: Fs, ip: nat, i: nat) {
    && Conserved(sb, s) && Conserved(sb, t) && ip < |s.ino| && i <= NDIRECT
    && t.ino == s.ino[ip := Cleared(s.ino[ip], i)] && t.owner == Rest(s.owner, ip, 0, i)
    && forall c: nat :: c < sb.size && !(sb.bmapstart <= c < sb.nmeta) ==> t.disk[c] == s.disk[c]
  }

  lemma TrimStart(sb: Super, s: Fs, ip: nat)
    requires Conserved(sb, s) && ip < |s.ino|
    ensures Trimming(sb, s, s, ip, 0)
  {
    assert Cleared(s.ino[ip], 0) == s.ino[ip] by { assert seq(0, k => 0) + s.ino[ip].addrs[0..] == s.ino[ip].addrs; }
    assert Rest(s.owner, ip, 0, 0) == s.owner;
  }

  /** After a loop step that found slot i empty, or freed its block and cleared it. */
  ghost function Trimmed(sb: Super, t: Fs, ip: nat, i: nat): Fs
    requires OnDisk(sb, t.disk) && ip < |t.ino| && i < NDIRECT && t.ino[ip].addrs[i] < sb.size
  {
    var a := t.ino[ip].addrs[i];
    if a == 0 then t
    else Fs(Marked(sb, t.disk, a, false), t.ino[ip := t.ino[ip].(addrs := t.ino[ip].addrs[i := 0])],
            Rest(t.owner, ip, i, i + 1), t.logged + {BitBlock(sb, a)})
  }

  lemma RestNext(owner: Owners, ip: nat, lo: nat, i: nat)
    requires lo <= i
    ensures Rest(Rest(owner, ip, lo, i), ip, i, i + 1) == Rest(owner, ip, lo, i + 1)
  {
  }

  lemma ClearedNext(d: Inode, i: nat)
    requires i <= NDIRECT
    ensures Cleared(d, i).addrs[i] == d.addrs[i]
    ensures Cleared(d, i).(addrs := Cleared(d, i).addrs[i := 0]) == Cleared(d, i + 1)
    ensures d.addrs[i] == 0 ==> Cleared(d, i + 1) == Cleared(d, i)
  {
    assert Cleared(d, i).addrs[i := 0] == Cleared(d, i + 1).addrs;
    if d.addrs[i] == 0 { assert Cleared(d, i).addrs == Cleared(d, i + 1).addrs; }
  }

  /** From t to u inode ip loses its slots lo to hi - 1, nothing else changes. */
  ghost predicate Fewer(t: Fs, u: Fs, ip: nat, lo: nat, hi: nat) {
    && |u.ino| == |t.ino| && u.owner == Rest(t.owner, ip, lo, hi)
    && forall i: nat, k: nat :: i < |t.ino| && k < SLOTS
         ==> Addr(u.disk, u.ino[i], k) == if i == ip && lo <= k < hi then 0 else Addr(t.disk, t.ino[i], k)
  }

  lemma Detach(sb: Super, t: Fs, u: Fs, ip: nat, lo: nat, hi: nat)
    requires Own(sb, t) && Fewer(t, u, ip, lo, hi)
    ensures Own(sb, u)
  {
    hide Addr;
    forall b: nat | b in u.owner ensures OwnedRight(sb, u, b) { assert OwnedRight(sb, t, b); }
  }

  /** The blocks behind a single slot. */
  lemma OneHeld(sb: Super, t: Fs, ip: nat, k: nat)
    requires Layout(sb) && Own(sb, t) && ip < |t.ino| && k < SLOTS
    ensures var a := Addr(t.disk, t.ino[ip], k);
      if a == 0 then Rest(t.owner, ip, k, k + 1) == t.owner
      else
        && a in t.owner && sb.nmeta <= a < sb.size && t.owner[a] == (ip, k)
        && Rest(t.owner, ip, k, k + 1).Keys == t.owner.Keys - {a}
  {
    hide Addr;
    var a := Addr(t.disk, t.ino[ip], k);
    forall b: nat | b in t.owner && t.owner[b] == (ip, k) ensures b == a { assert OwnedRight(sb, t, b); }
    forall b: nat | b in t.owner ensures b > 0 { assert OwnedRight(sb, t, b); }
    if a != 0 { assert Held(t.owner, a, ip, k) && OwnedRight(sb, t, a); }
  }

  lemma TrimNext(sb: Super, s: Fs, t: Fs, ip: nat, i: nat)
    requires Trimming(sb, s, t, ip, i) && i < NDIRECT
    ensures ip < |t.ino| && OnDisk(sb, t.disk) && t.ino[ip].addrs[i] < sb.size
    ensures ip < |s.ino| && t.ino[ip].addrs[i] == s.ino[ip].addrs[i]
    ensures t.ino[ip].addrs[i] != 0 ==> Used(sb, t.disk, t.ino[ip].addrs[i])
    ensures Trimming(sb, s, Trimmed(sb, t, ip, i), ip, i + 1)
  {
    hide Used, Marked, Own, Bits, GetWord, Rest, Cleared;
    var a := t.ino[ip].addrs[i];
    RestNext(s.owner, ip, 0, i);
    ClearedNext(s.ino[ip], i);
    OneHeld(sb, t, ip, i);
    if a != 0 {
      BitsLess(sb, t.disk, t.owner.Keys, a);
      TrimmedOwn(sb, t, ip, i);
    }
  }

  lemma TrimmedOwn(sb: Super, t: Fs, ip: nat, i: nat)
    requires Conserved(sb, t) && ip < |t.ino| && i < NDIRECT && 0 < t.ino[ip].addrs[i] < sb.size
    ensures Own(sb, Trimmed(sb, t, ip, i))
  {
    hide Used, Bits, GetWord, Rest;
    var u := Trimmed(sb, t, ip, i);
    var m := Fs(u.disk, t.ino, t.owner, t.logged);
    OwnedData(sb, t);
    AddrFrame(sb, t, m);
    forall j: nat, k: nat | j < |t.ino| && k < SLOTS
      ensures Addr(u.disk, u.ino[j], k) == if j == ip && i <= k < i + 1 then 0 else Addr(t.disk, t.ino[j], k)
    {
      assert Addr(m.disk, m.ino[j], k) == Addr(t.disk, t.ino[j], k);
    }
    Detach(sb, t, u, ip, i, i + 1);
  }

  /** itrunc has freed the first j entries of the indirect block; only the bitmap has changed. */
  ghost predicate Emptying(sb: Super, s: Fs, t: Fs, ip: nat, j: nat) {
    && Conserved(sb, s) && ip < |s.ino| && s.ino[ip].addrs[NDIRECT] != 0 && j <= NINDIRECT
    && OnDisk(sb, t.disk) && t.ino == s.ino && t.owner == s.owner
    && (forall c: nat :: c < sb.size && !(sb.bmapstart <= c < sb.nmeta) ==> t.disk[c] == s.disk[c])
    && Bits(sb, t.disk, Rest(s.owner, ip, NDIRECT + 1, NDIRECT + 1 + j).Keys)
  }

  lemma EmptyStart(sb: Super, s: Fs, ip: nat)
    requires Conserved(sb, s) && ip < |s.ino| && s.ino[ip].addrs[NDIRECT] != 0
    ensures Emptying(sb, s, s, ip, 0)
  {
    hide Bits;
    assert Rest(s.owner, ip, NDIRECT + 1, NDIRECT + 1) == s.owner;
  }

  lemma EmptyNext(sb: Super, s: Fs, t: Fs, ip: nat, j: nat)
    requires Emptying(sb, s, t, ip, j) && j < NINDIRECT
    ensures s.ino[ip].addrs[NDIRECT] < sb.size
    ensures var a := GetWord(s.disk[s.ino[ip].addrs[NDIRECT]], j);
      && a < sb.size
      && if a == 0 then Emptying(sb, s, t, ip, j + 1)
         else
           && Used(sb, t.disk, a)
           && Emptying(sb, s, Fs(Marked(sb, t.disk, a, false), t.ino, t.owner, t.logged + {BitBlock(sb, a)}), ip, j + 1)
  {
    hide Used, Marked, Own, Bits, GetWord, Rest;
    var k := NDIRECT + 1 + j;
    IndirectHeld(sb, s, ip);
    var a := Addr(s.disk, s.ino[ip], k);
    OneHeld(sb, s, ip, k);
    RestKeys(s.owner, ip, NDIRECT + 1, k);
    if a != 0 { BitsLess(sb, t.disk, Rest(s.owner, ip, NDIRECT + 1, k).Keys, a); }
  }

  lemma RestKeys(owner: Owners, ip: nat, lo: nat, k: nat)
    requires lo <= k
    ensures forall a: nat :: a in owner && owner[a] == (ip, k) ==> a in Rest(owner, ip, lo, k)
    ensures forall a: nat :: Rest(owner, ip, k, k + 1).Keys == owner.Keys - {a} && a in owner
              ==> Rest(owner, ip, lo, k + 1).Keys == Rest(owner, ip, lo, k).Keys - {a}
    ensures Rest(owner, ip, k, k + 1) == owner ==> Rest(owner, ip, lo, k + 1) == Rest(owner, ip, lo, k)
  {
    assert forall b: nat :: b in Rest(owner, ip, lo, k + 1) <==>
      b in Rest(owner, ip, lo, k) && b in Rest(owner, ip, k, k + 1);
  }

  /** The indirect block itself goes last, and the inode is empty. */
  lemma EmptyDone(sb: Super, s: Fs, t: Fs, ip: nat)
    requires Emptying(sb, s, t, ip, NINDIRECT)
    ensures var a := s.ino[ip].addrs[NDIRECT];
      && a < sb.size && Used(sb, t.disk, a)
      && var u := Fs(Marked(sb, t.disk, a, false), s.ino[ip := s.ino[ip].(addrs := s.ino[ip].addrs[NDIRECT := 0])],
                     Rest(s.owner, ip, NDIRECT, SLOTS), t.logged + {BitBlock(sb, a)});
         && Conserved(sb, u)
         && forall c: nat :: c < sb.size && !(sb.bmapstart <= c < sb.nmeta) ==> u.disk[c] == s.disk[c]
  {
    hide Used, Marked, Bits, GetWord;
    var a := s.ino[ip].addrs[NDIRECT];
    IndirectHeld(sb, s, ip);
    OneHeld(sb, s, ip, NDIRECT);
    var left := Rest(s.owner, ip, NDIRECT + 1, SLOTS);
    assert Rest(s.owner, ip, NDIRECT, SLOTS).Keys == left.Keys - {a};
    BitsLess(sb, t.disk, left.Keys, a);
    var u := Fs(Marked(sb, t.disk, a, false), s.ino[ip := s.ino[ip].(addrs := s.ino[ip].addrs[NDIRECT := 0])],
                Rest(s.owner, ip, NDIRECT, SLOTS), t.logged + {BitBlock(sb, a)});
    EmptiedOwn(sb, s, u, ip);
  }

  lemma EmptiedOwn(sb: Super, s: Fs, u: Fs, ip: nat)
    requires Conserved(sb, s) && ip < |s.ino| && OnDisk(sb, u.disk)
    requires forall c: nat :: c < sb.size && !(sb.bmapstart <= c < sb.nmeta) ==> u.disk[c] == s.disk[c]
    requires u.ino == s.ino[ip := s.ino[ip].(addrs := s.ino[ip].addrs[NDIRECT := 0])]
    requires u.owner == Rest(s.owner, ip, NDIRECT, SLOTS)
    ensures Own(sb, u)
  {
    hide Used, Bits, GetWord, Rest;
    var m := Fs(u.disk, s.ino, s.owner, s.logged);
    OwnedData(sb, s);
    AddrFrame(sb, s, m);
    forall j: nat, k: nat | j < |s.ino| && k < SLOTS
      ensures Addr(u.disk, u.ino[j], k) == if j == ip && NDIRECT <= k < SLOTS then 0 else Addr(s.disk, s.ino[j], k)
    {
      assert Addr(m.disk, m.ino[j], k) == Addr(s.disk, s.ino[j], k);
    }
    Detach(sb, s, u, ip, NDIRECT, SLOTS);
  }
}
