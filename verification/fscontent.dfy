/** Files as byte sequences: what the loops of readi and writei do to the bytes of a file. */
module FileContent {
  import opened Blocks
  import opened FsFormat
  import opened Seqs
  import opened BlockOwners

  const MAXBYTES: nat := MAXFILE * BSIZE

  /** The address of the block that holds byte p of the file, 0 if there is none. */
  ghost function BlockOf(s: Fs, ip: nat, p: nat): Word
    requires ip < |s.ino|
  {
    if p < MAXBYTES then Addr(s.disk, s.ino[ip], DataSlot(p / BSIZE)) else 0
  }

  /** A hole reads as zero. */
  ghost function ByteAt(s: Fs, ip: nat, p: nat): Byte
    requires ip < |s.ino|
  {
    if 0 < BlockOf(s, ip, p) < |s.disk| then s.disk[BlockOf(s, ip, p)][p % BSIZE] else 0
  }

  ghost predicate HoleFree(s: Fs, ip: nat)
    requires ip < |s.ino|
  {
    s.ino[ip].size <= MAXBYTES && forall p: nat :: p < s.ino[ip].size ==> BlockOf(s, ip, p) != 0
  }

  ghost function Content(s: Fs, ip: nat): (c: seq<Byte>)
    requires ip < |s.ino|
    ensures |c| == s.ino[ip].size
  {
    seq(s.ino[ip].size, p requires 0 <= p => ByteAt(s, ip, p))
  }

  /** From s to t inode ip may have gained blocks and have new data; everyone else's blocks are as before. */
  ghost predicate Extended(sb: Super, s: Fs, t: Fs, ip: nat) {
    && |t.disk| == |s.disk| && ip < |s.ino| && |t.ino| == |s.ino|
    && t.ino == s.ino[ip := s.ino[ip].(addrs := t.ino[ip].addrs)]
    && (forall b: nat :: b in s.owner ==>
          && b in t.owner && t.owner[b] == s.owner[b]
          && (b < |s.disk| && s.owner[b].0 != ip ==> t.disk[b] == s.disk[b]))
    && (forall b: nat :: b in t.owner && b !in s.owner ==> t.owner[b].0 == ip)
    && (forall c: nat :: c < sb.bmapstart && c < |s.disk| ==> t.disk[c] == s.disk[c])
    && s.logged <= t.logged
  }

  lemma ExtendedTrans(sb: Super, s: Fs, t: Fs, u: Fs, ip: nat)
    requires Extended(sb, s, t, ip) && Extended(sb, t, u, ip)
    ensures Extended(sb, s, u, ip)
  {
  }

  /** bmap changes no byte: what is there stays, and a new block is zero like the hole it fills. */
  lemma MappedBytes(sb: Super, s: Fs, t: Fs, ip: nat, bn: nat, addr: Word, p: nat)
    requires Conserved(sb, s) && Conserved(sb, t) && Mapped(sb, s, t, ip, bn, addr)
    ensures BlockOf(s, ip, p) != 0 ==> BlockOf(t, ip, p) == BlockOf(s, ip, p)
    ensures ByteAt(t, ip, p) == ByteAt(s, ip, p)
  {
    if p < MAXBYTES {
      if BlockOf(s, ip, p) != 0 { OldBytes(sb, s, t, ip, bn, addr, p); } else { NewBytes(sb, s, t, ip, bn, addr, p); }
    }
  }

  lemma OldBytes(sb: Super, s: Fs, t: Fs, ip: nat, bn: nat, addr: Word, p: nat)
    requires Conserved(sb, s) && Conserved(sb, t) && Mapped(sb, s, t, ip, bn, addr) && BlockOf(s, ip, p) != 0
    ensures BlockOf(t, ip, p) == BlockOf(s, ip, p) && ByteAt(t, ip, p) == ByteAt(s, ip, p)
  {
    hide Addr, Bits;
    var k := DataSlot(p / BSIZE);
    GrownAddr(sb, s, t, ip, ip, k);
    var a := BlockOf(s, ip, p);
    assert Held(s.owner, a, ip, k) && OwnedRight(sb, s, a);
  }

  lemma NewBytes(sb: Super, s: Fs, t: Fs, ip: nat, bn: nat, addr: Word, p: nat)
    requires Mapped(sb, s, t, ip, bn, addr) && p < MAXBYTES && BlockOf(s, ip, p) == 0
    ensures ByteAt(t, ip, p) == 0
  {
    hide Addr;
    if p / BSIZE == bn { assert BlockOf(t, ip, p) == addr && t.disk[addr] == ZeroBlock(); }
  }

  ghost function Patch(b: Block, o: nat, data: seq<Byte>): Block
    requires o + |data| <= BSIZE
  {
    b[..o] + data + b[o+|data|..]
  }

  /** Writing into the block of byte p0 changes these bytes of the file and no others. */
  ghost function Patched(s: Fs, addr: nat, o: nat, data: seq<Byte>): Fs
    requires addr < |s.disk| && o + |data| <= BSIZE
  {
    Fs(s.disk[addr := Patch(s.disk[addr], o, data)], s.ino, s.owner, s.logged + {addr})
  }

  lemma PatchedKeeps(sb: Super, s: Fs, ip: nat, p0: nat, data: seq<Byte>)
    requires Conserved(sb, s) && ip < |s.ino| && BlockOf(s, ip, p0) != 0 && p0 % BSIZE + |data| <= BSIZE
    ensures sb.nmeta <= BlockOf(s, ip, p0) < sb.size
    ensures var t := Patched(s, BlockOf(s, ip, p0), p0 % BSIZE, data);
      Conserved(sb, t) && Extended(sb, s, t, ip) && SameAddrs(s, t)
  {
    hide Addr, Used;
    var k, a := DataSlot(p0 / BSIZE), BlockOf(s, ip, p0);
    assert Held(s.owner, a, ip, k) && OwnedRight(sb, s, a);
    var t := Patched(s, a, p0 % BSIZE, data);
    AddrFrame(sb, s, t);
    OwnFrame(sb, s, t);
    BitsFrame(sb, s.disk, t.disk, s.owner.Keys);
  }

  lemma PatchedBytes(sb: Super, s: Fs, ip: nat, p0: nat, data: seq<Byte>, p: nat)
    requires Conserved(sb, s) && ip < |s.ino| && BlockOf(s, ip, p0) != 0 && p0 % BSIZE + |data| <= BSIZE
    requires BlockOf(s, ip, p0) < sb.size
    ensures var t := Patched(s, BlockOf(s, ip, p0), p0 % BSIZE, data);
      && BlockOf(t, ip, p) == BlockOf(s, ip, p)
      && ByteAt(t, ip, p) == if p0 <= p < p0 + |data| then data[p-p0] else ByteAt(s, ip, p)
  {
    hide Addr, Used, Bits;
    PatchedKeeps(sb, s, ip, p0, data);
    var k0, k := DataSlot(p0 / BSIZE), DataSlot(p / BSIZE);
    var a0, a := BlockOf(s, ip, p0), BlockOf(s, ip, p);
    assert Held(s.owner, a0, ip, k0);
    if a != 0 { assert Held(s.owner, a, ip, k) && OwnedRight(sb, s, a); }
    if a == a0 {
      assert p / BSIZE == p0 / BSIZE;
      assert p - p0 == p % BSIZE - p0 % BSIZE;
    } else {
      SameBlock(p0, |data|, p);
    }
  }

  lemma SameBlock(p0: nat, m: nat, p: nat)
    requires p0 % BSIZE + m <= BSIZE && p / BSIZE != p0 / BSIZE
    ensures !(p0 <= p < p0 + m)
  {
  }

  // ---- the loop of writei ----

  /** writei has put the first tot bytes of src at off, and left every other byte alone. */
  ghost predicate Written(s: Fs, t: Fs, ip: nat, off: nat, src: seq<Byte>, tot: nat) {
    && ip < |s.ino| == |t.ino| && tot <= |src|
    && (forall p: nat :: off <= p < off + tot ==> BlockOf(t, ip, p) != 0 && ByteAt(t, ip, p) == src[p-off])
    && (forall p: nat :: !(off <= p < off + tot) ==>
          (BlockOf(s, ip, p) != 0 ==> BlockOf(t, ip, p) != 0) && ByteAt(t, ip, p) == ByteAt(s, ip, p))
  }

  ghost predicate Partial(s: Fs, ip: nat, off: nat)
    requires ip < |s.ino|
  {
    HoleFree(s, ip) && off <= s.ino[ip].size && off % BSIZE != 0
  }

  /**
    What the blocks passed to log_write amount to after n blocks of data: two for
    each, but for a first block that is not new, and two for an indirect block.
   */
  ghost predicate Charged(s: Fs, t: Fs, ip: nat, off: nat, n: nat) {
    && ip < |s.ino| == |t.ino|
    && (IndirectLogged(s, ip) ==> IndirectLogged(t, ip))
    && |t.logged| <= |s.logged| + 2 * n - (if n > 0 && Partial(s, ip, off) then 1 else 0)
                     + if IndirectLogged(t, ip) && !IndirectLogged(s, ip) then 2 else 0
  }

  /** tot bytes from off on fill n blocks, the last one only at the end of the data. */
  ghost predicate Chunked(off: nat, len: nat, tot: nat, n: nat) {
    && tot <= len && (n == 0 <==> tot == 0)
    && (n > 0 ==> n - 1 == (off + tot - 1) / BSIZE - off / BSIZE)
    && (0 < tot < len ==> (off + tot) % BSIZE == 0)
  }

  ghost predicate Writing(sb: Super, s: Fs, t: Fs, ip: nat, off: nat, src: seq<Byte>, tot: nat, n: nat) {
    && Conserved(sb, s) && Conserved(sb, t) && Extended(sb, s, t, ip)
    && Written(s, t, ip, off, src, tot) && Charged(s, t, ip, off, n) && Chunked(off, |src|, tot, n)
    && (HoleFree(s, ip) ==> t.ino == s.ino || off + tot > s.ino[ip].size)
    && (n == 0 ==> t == s)
  }

  lemma WriteStart(sb: Super, s: Fs, ip: nat, off: nat, src: seq<Byte>)
    requires Conserved(sb, s) && ip < |s.ino|
    ensures Writing(sb, s, s, ip, off, src, 0, 0)
  {
  }

  lemma WrittenNext(sb: Super, s: Fs, t: Fs, u: Fs, ip: nat, off: nat, src: seq<Byte>, tot: nat, m: nat, addr: Word)
    requires Conserved(sb, s) && Conserved(sb, t) && Conserved(sb, u) && Written(s, t, ip, off, src, tot)
    requires Mapped(sb, t, u, ip, (off + tot) / BSIZE, addr)
    requires tot + m <= |src| && (off + tot) % BSIZE + m <= BSIZE && off + tot < MAXBYTES
    ensures addr < sb.size
    ensures Written(s, Patched(u, addr, (off + tot) % BSIZE, src[tot..tot+m]), ip, off, src, tot + m)
  {
    hide Addr, Used, Own, Bits, BlockOf, ByteAt, Patched;
    var p0, data := off + tot, src[tot..tot+m];
    assert BlockOf(u, ip, p0) == addr by { BlockIs(sb, t, u, ip, p0, addr); }
    PatchedKeeps(sb, u, ip, p0, data);
    var v := Patched(u, addr, p0 % BSIZE, data);
    forall p: nat | off <= p < off + tot + m ensures BlockOf(v, ip, p) != 0 && ByteAt(v, ip, p) == src[p-off] {
      if p < p0 {
        MappedBytes(sb, t, u, ip, p0 / BSIZE, addr, p);
      } else {
        BlockSame(u, ip, p0, p, m);
      }
      PatchedBytes(sb, u, ip, p0, data, p);
    }
    forall p: nat | !(off <= p < off + tot + m)
      ensures (BlockOf(s, ip, p) != 0 ==> BlockOf(v, ip, p) != 0) && ByteAt(v, ip, p) == ByteAt(s, ip, p)
    {
      MappedBytes(sb, t, u, ip, p0 / BSIZE, addr, p);
      PatchedBytes(sb, u, ip, p0, data, p);
    }
  }

  lemma BlockIs(sb: Super, t: Fs, u: Fs, ip: nat, p0: nat, addr: Word)
    requires Mapped(sb, t, u, ip, p0 / BSIZE, addr) && p0 < MAXBYTES
    ensures ip < |u.ino| && BlockOf(u, ip, p0) == addr != 0
  {
  }

  lemma BlockSame(u: Fs, ip: nat, p0: nat, p: nat, m: nat)
    requires ip < |u.ino| && p0 <= p < p0 + m && p0 % BSIZE + m <= BSIZE && p0 < MAXBYTES
    ensures BlockOf(u, ip, p) == BlockOf(u, ip, p0)
  {
    assert p / BSIZE == p0 / BSIZE;
  }

  lemma ChargedNext(sb: Super, s: Fs, t: Fs, u: Fs, ip: nat, off: nat, tot: nat, n: nat, addr: Word)
    requires Charged(s, t, ip, off, n) && Mapped(sb, t, u, ip, (off + tot) / BSIZE, addr)
    requires Conserved(sb, t) && Conserved(sb, u)
    requires n == 0 ==> t == s && tot == 0 && off < MAXBYTES
    ensures Charged(s, Fs(u.disk, u.ino, u.owner, u.logged + {addr}), ip, off, n + 1)
  {
    hide Addr, Used, Own, Bits, HoleFree;
    CardAdd(u.logged, addr);
    IndirectStays(sb, t, u, ip);
    if n == 0 && Partial(s, ip, off) { FirstBlockThere(s, ip, off); }
  }

  lemma IndirectStays(sb: Super, t: Fs, u: Fs, ip: nat)
    requires Conserved(sb, t) && Conserved(sb, u) && Grown(sb, t, u, ip)
    ensures IndirectLogged(t, ip) ==> IndirectLogged(u, ip) && u.ino[ip].addrs[NDIRECT] == t.ino[ip].addrs[NDIRECT]
  {
    hide Own, Bits;
    GrownAddr(sb, t, u, ip, ip, NDIRECT);
  }

  /** The block of an unaligned offset inside or at the end of a file without holes exists. */
  lemma FirstBlockThere(s: Fs, ip: nat, off: nat)
    requires ip < |s.ino| && Partial(s, ip, off) && off < MAXBYTES
    ensures Addr(s.disk, s.ino[ip], DataSlot(off / BSIZE)) != 0
  {
    hide Addr;
    assert BlockOf(s, ip, off - 1) != 0;
    assert (off - 1) / BSIZE == off / BSIZE;
  }

  lemma ChunkedNext(off: nat, len: nat, tot: nat, n: nat, m: nat)
    requires Chunked(off, len, tot, n) && tot < len
    requires m == if len - tot < BSIZE - (off + tot) % BSIZE then len - tot else BSIZE - (off + tot) % BSIZE
    ensures 0 < m && tot + m <= len && (off + tot) % BSIZE + m <= BSIZE && Chunked(off, len, tot + m, n + 1)
  {
    var q, r := (off + tot) / BSIZE, (off + tot) % BSIZE;
    assert off + tot == BSIZE * q + r;
    assert (off + tot + m - 1) / BSIZE == q by {
      assert off + tot + m - 1 == BSIZE * q + (r + m - 1) && 0 <= r + m - 1 < BSIZE;
    }
    if tot + m < len { assert off + tot + m == BSIZE * (q + 1); }
    if n > 0 {
      assert r == 0 && off + tot - 1 == BSIZE * (q - 1) + (BSIZE - 1);
      assert (off + tot - 1) / BSIZE == q - 1;
    }
  }

  lemma GrowthNext(sb: Super, s: Fs, t: Fs, u: Fs, ip: nat, p0: nat, m: nat, addr: Word)
    requires ip < |s.ino| && HoleFree(s, ip) && Mapped(sb, t, u, ip, p0 / BSIZE, addr) && p0 < MAXBYTES && m > 0
    requires t.ino == s.ino || p0 > s.ino[ip].size
    requires BlockOf(s, ip, p0) != 0 ==> BlockOf(t, ip, p0) != 0
    ensures u.ino == s.ino || p0 + m > s.ino[ip].size
  {
    hide Addr;
  }

  /** One round of writei's loop. */
  lemma WriteNext(sb: Super, s: Fs, t: Fs, u: Fs, ip: nat, off: nat, src: seq<Byte>, tot: nat, n: nat, m: nat,
    addr: Word)
    requires Writing(sb, s, t, ip, off, src, tot, n) && Conserved(sb, u)
    requires Mapped(sb, t, u, ip, (off + tot) / BSIZE, addr) && tot < |src| && off + |src| <= MAXBYTES
    requires m == if |src| - tot < BSIZE - (off + tot) % BSIZE then |src| - tot else BSIZE - (off + tot) % BSIZE
    ensures 0 < m && tot + m <= |src| && (off + tot) % BSIZE + m <= BSIZE && sb.nmeta <= addr < |u.disk|
    ensures Writing(sb, s, Patched(u, addr, (off + tot) % BSIZE, src[tot..tot+m]), ip, off, src, tot + m, n + 1)
  {
    hide Own, Bits, Written, Charged, Chunked, HoleFree, BlockOf, Extended, Mapped;
    ChunkedNext(off, |src|, tot, n, m);
    WrittenNext(sb, s, t, u, ip, off, src, tot, m, addr);
    BlockIs(sb, t, u, ip, off + tot, addr);
    PatchedKeeps(sb, u, ip, off + tot, src[tot..tot+m]);
    var v := Patched(u, addr, (off + tot) % BSIZE, src[tot..tot+m]);
    MappedExtends(sb, t, u, ip, (off + tot) / BSIZE, addr);
    ExtendedTrans(sb, s, t, u, ip);
    ExtendedTrans(sb, s, u, v, ip);
    ChargedStart(s, t, ip, off, src, tot, n);
    ChargedNext(sb, s, t, u, ip, off, tot, n, addr);
    ChargedSame(s, Fs(u.disk, u.ino, u.owner, u.logged + {addr}), v, ip, off, n + 1);
    if HoleFree(s, ip) {
      WrittenBlock(s, t, ip, off, src, tot);
      GrowthNext(sb, s, t, u, ip, off + tot, m, addr);
    }
  }

  lemma ChargedStart(s: Fs, t: Fs, ip: nat, off: nat, src: seq<Byte>, tot: nat, n: nat)
    requires Chunked(off, |src|, tot, n)
    ensures n == 0 ==> tot == 0
  {
  }

  lemma ChargedSame(s: Fs, t: Fs, u: Fs, ip: nat, off: nat, n: nat)
    requires Charged(s, t, ip, off, n) && u.ino == t.ino && u.logged == t.logged
    ensures Charged(s, u, ip, off, n)
  {
  }

  lemma WrittenBlock(s: Fs, t: Fs, ip: nat, off: nat, src: seq<Byte>, tot: nat)
    requires Written(s, t, ip, off, src, tot)
    ensures BlockOf(s, ip, off + tot) != 0 ==> BlockOf(t, ip, off + tot) != 0
  {
  }

  lemma MappedExtends(sb: Super, t: Fs, u: Fs, ip: nat, bn: nat, addr: Word)
    requires Mapped(sb, t, u, ip, bn, addr)
    ensures Extended(sb, t, u, ip)
  {
  }

  // ---- the whole of writei ----

  /** The blocks a write of n bytes at off touches. */
  function BlocksTouched(off: nat, n: nat): nat {
    if n == 0 then 0 else (off + n - 1) / BSIZE - off / BSIZE + 1
  }

  /** The most blocks a write passes to log_write on a file without holes: with indirect block and inode. */
  function WriteCost(off: nat, n: nat): int {
    if n == 0 then 0 else 2 * BlocksTouched(off, n) + 3 - if off % BSIZE != 0 then 1 else 0
  }

  function Overwritten(c: seq<Byte>, off: nat, src: seq<Byte>): seq<Byte>
    requires off <= |c|
  {
    c[..off] + src + if off + |src| <= |c| then c[off+|src|..] else []
  }

  /** What a successful writei(ip, src, off) does. */
  ghost predicate Wrote(sb: Super, s: Fs, w: Fs, ip: nat, off: nat, src: seq<Byte>) {
    && Conserved(sb, s) && Conserved(sb, w) && ip < |s.ino| && off + |src| <= MAXBYTES
    && OthersKept(sb, s, w, ip)
    && Written(s, w, ip, off, src, |src|)
    && w.ino[ip] == s.ino[ip].(size := if off + |src| > s.ino[ip].size then off + |src| else s.ino[ip].size,
                               addrs := w.ino[ip].addrs)
    && (HoleFree(s, ip) ==>
          && |w.logged| <= |s.logged| + WriteCost(off, |src|)
          && (Stored(sb, s.disk, ip) == s.ino[ip] ==> Stored(sb, w.disk, ip) == w.ino[ip]))
  }

  /** Every other inode, in memory and on the disk, and every block it owns. */
  ghost predicate OthersKept(sb: Super, s: Fs, w: Fs, ip: nat)
    requires OnDisk(sb, s.disk) && OnDisk(sb, w.disk) && |s.ino| == |w.ino| == sb.ninodes
  {
    && (forall j: nat :: j < |s.ino| && j != ip ==>
          w.ino[j] == s.ino[j] && Stored(sb, w.disk, j) == Stored(sb, s.disk, j))
    && (forall b: nat :: b in s.owner ==> b in w.owner && w.owner[b] == s.owner[b])
    && (forall b: nat :: b in w.owner && b !in s.owner ==> w.owner[b].0 == ip)
    && (forall b: nat :: b in s.owner && s.owner[b].0 != ip && b < |s.disk| ==> w.disk[b] == s.disk[b])
  }

  /** The meaning of a write: exactly the written bytes change, holes or not, and no hole appears. */
  lemma WriteRefines(sb: Super, s: Fs, w: Fs, ip: nat, off: nat, src: seq<Byte>)
    requires Wrote(sb, s, w, ip, off, src) && off <= s.ino[ip].size
    ensures Content(w, ip) == Overwritten(Content(s, ip), off, src)
    ensures HoleFree(s, ip) ==> HoleFree(w, ip)
  {
    hide BlockOf, ByteAt, Conserved;
    var c, d := Content(w, ip), Overwritten(Content(s, ip), off, src);
    forall p: nat | p < w.ino[ip].size ensures c[p] == d[p] {}
  }

  /** Other files keep their content. */
  lemma OthersContent(sb: Super, s: Fs, w: Fs, ip: nat, j: nat)
    requires Conserved(sb, s) && Conserved(sb, w) && OthersKept(sb, s, w, ip) && j < |s.ino| && j != ip
    ensures Content(w, j) == Content(s, j) && (HoleFree(s, j) ==> HoleFree(w, j))
  {
    hide Addr, Bits, Stored;
    forall p: nat | p < s.ino[j].size
      ensures BlockOf(w, j, p) == BlockOf(s, j, p) && ByteAt(w, j, p) == ByteAt(s, j, p)
    {
      if p < MAXBYTES { OthersBlock(sb, s, w, ip, j, DataSlot(p / BSIZE)); }
    }
  }

  lemma OthersBlock(sb: Super, s: Fs, w: Fs, ip: nat, j: nat, k: nat)
    requires Conserved(sb, s) && Conserved(sb, w) && OthersKept(sb, s, w, ip) && j < |s.ino| && j != ip && k < SLOTS
    ensures var a := Addr(s.disk, s.ino[j], k);
      Addr(w.disk, w.ino[j], k) == a && (a != 0 ==> a < |s.disk| && w.disk[a] == s.disk[a])
  {
    hide Addr, Bits, Stored;
    var a, b := Addr(s.disk, s.ino[j], k), Addr(w.disk, w.ino[j], k);
    if a != 0 { assert Held(s.owner, a, j, k) && OwnedRight(sb, s, a) && OwnedRight(sb, w, a); }
    if b != 0 { assert Held(w.owner, b, j, k) && (b in s.owner ==> OwnedRight(sb, s, b)); }
  }

  lemma NotResized(sb: Super, s: Fs, t: Fs, ip: nat, off: nat, src: seq<Byte>, n: nat)
    requires Writing(sb, s, t, ip, off, src, |src|, n) && !(|src| > 0 && off + |src| > s.ino[ip].size)
    requires off <= s.ino[ip].size && off + |src| <= MAXBYTES
    ensures Wrote(sb, s, t, ip, off, src)
  {
    hide Own, Bits, Written, HoleFree, GetInode;
    ExtendedKeeps(sb, s, t, ip);
    if HoleFree(s, ip) {
      assert Stored(sb, t.disk, ip) == Stored(sb, s.disk, ip);
      CostIs(s, t, ip, off, src, n);
    }
  }

  lemma ExtendedKeeps(sb: Super, s: Fs, t: Fs, ip: nat)
    requires Conserved(sb, s) && Conserved(sb, t) && Extended(sb, s, t, ip)
    ensures OthersKept(sb, s, t, ip)
    ensures ip < sb.ninodes && forall i: nat :: i < sb.ninodes ==> Stored(sb, t.disk, i) == Stored(sb, s.disk, i)
  {
    hide Own, Bits, GetInode;
  }

  lemma CostIs(s: Fs, t: Fs, ip: nat, off: nat, src: seq<Byte>, n: nat)
    requires Charged(s, t, ip, off, n) && Chunked(off, |src|, |src|, n) && HoleFree(s, ip) && off <= s.ino[ip].size
    requires n == 0 ==> t == s
    ensures |t.logged| + (if |src| > 0 then 1 else 0) <= |s.logged| + WriteCost(off, |src|)
  {
    hide HoleFree;
  }

  /** With the new size stored by iupdate. */
  ghost function Resized(sb: Super, t: Fs, ip: nat, size: Word): Fs
    requires ip < |t.ino| && InodeBlock(sb, ip) < |t.disk|
  {
    var d := t.ino[ip].(size := size);
    Fs(Store(sb, t.disk, ip, d), t.ino[ip := d], t.owner, t.logged + {InodeBlock(sb, ip)})
  }

  lemma ResizedWrote(sb: Super, s: Fs, t: Fs, ip: nat, off: nat, src: seq<Byte>, n: nat)
    requires Writing(sb, s, t, ip, off, src, |src|, n) && |src| > 0 && off + |src| > s.ino[ip].size
    requires off <= s.ino[ip].size && off + |src| <= MAXBYTES
    ensures InodeBlock(sb, ip) < |t.disk| && Wrote(sb, s, Resized(sb, t, ip, off + |src|), ip, off, src)
  {
    hide Own, Bits, Written, HoleFree, Charged, Chunked, GetInode, PutInode;
    ExtendedKeeps(sb, s, t, ip);
    var w := Resized(sb, t, ip, off + |src|);
    ResizedKeeps(sb, t, ip, off + |src|);
    CardAdd(t.logged, InodeBlock(sb, ip));
    ResizedBytes(sb, s, t, ip, off, src);
    if HoleFree(s, ip) { CostIs(s, t, ip, off, src, n); }
  }

  lemma ResizedKeeps(sb: Super, t: Fs, ip: nat, size: Word)
    requires Conserved(sb, t) && ip < sb.ninodes
    ensures InodeBlock(sb, ip) < sb.bmapstart
    ensures var w := Resized(sb, t, ip, size); Conserved(sb, w) && OthersKept(sb, t, w, ip) && SameAddrs(t, w)
  {
    hide Used, Stored, Addr;
    var w := Resized(sb, t, ip, size);
    OwnedData(sb, t);
    var m := Fs(w.disk, t.ino, t.owner, t.logged);
    AddrFrame(sb, t, m);
    SizeAddrs(m, w, ip);
    SameOwn(sb, t, w);
    BitsFrame(sb, t.disk, w.disk, t.owner.Keys);
  }

  lemma SizeAddrs(m: Fs, w: Fs, ip: nat)
    requires ip < |m.ino| == |w.ino| && w.disk == m.disk
    requires w.ino == m.ino[ip := m.ino[ip].(size := w.ino[ip].size)]
    ensures SameAddrs(m, w)
  {
    hide GetWord;
    assert forall i: nat :: i < |m.ino| ==> w.ino[i].addrs == m.ino[i].addrs;
  }

  lemma SameOwn(sb: Super, t: Fs, w: Fs)
    requires Own(sb, t) && SameAddrs(t, w) && w.owner == t.owner
    ensures Own(sb, w)
  {
    hide Addr;
    forall b: nat | b in w.owner ensures OwnedRight(sb, w, b) {
      assert OwnedRight(sb, t, b);
      var (i, k) := t.owner[b];
      assert Addr(w.disk, w.ino[i], k) == Addr(t.disk, t.ino[i], k);
    }
  }

  lemma ResizedBytes(sb: Super, s: Fs, t: Fs, ip: nat, off: nat, src: seq<Byte>)
    requires Conserved(sb, t) && ip < sb.ninodes && Written(s, t, ip, off, src, |src|) && off + |src| <= MAXBYTES
    requires InodeBlock(sb, ip) < sb.bmapstart
    ensures Written(s, Resized(sb, t, ip, off + |src|), ip, off, src, |src|)
  {
    hide BlockOf, ByteAt, Own, Bits, Store;
    var w := Resized(sb, t, ip, off + |src|);
    forall p: nat ensures BlockOf(w, ip, p) == BlockOf(t, ip, p) && ByteAt(w, ip, p) == ByteAt(t, ip, p) {
      ResizedByte(sb, t, ip, off + |src|, p);
    }
  }

  lemma ResizedByte(sb: Super, t: Fs, ip: nat, size: Word, p: nat)
    requires Conserved(sb, t) && ip < sb.ninodes && InodeBlock(sb, ip) < sb.bmapstart
    ensures var w := Resized(sb, t, ip, size);
      BlockOf(w, ip, p) == BlockOf(t, ip, p) && ByteAt(w, ip, p) == ByteAt(t, ip, p)
  {
    hide Addr, Stored, Bits;
    var w := Resized(sb, t, ip, size);
    ResizedKeeps(sb, t, ip, size);
    if p < MAXBYTES {
      var k, a := DataSlot(p / BSIZE), BlockOf(t, ip, p);
      if a != 0 { assert Held(t.owner, a, ip, k) && OwnedRight(sb, t, a); }
      assert Addr(w.disk, w.ino[ip], k) == Addr(t.disk, t.ino[ip], k);
    }
  }

  // ---- readi and filewrite ----

  /** Every byte of the range has a block. */
  ghost predicate NoHole(s: Fs, ip: nat, off: nat, len: nat)
    requires ip < |s.ino|
  {
    forall p: nat :: off <= p < off + len ==> BlockOf(s, ip, p) != 0
  }

  /**
    readi has copied tot of the len bytes from off on.  No byte of the file has
    changed, the blocks still to come are as they were, and bmap has allocated a
    block exactly if there was a hole on the way.
   */
  ghost predicate ReadSofar(sb: Super, s: Fs, t: Fs, ip: nat, off: nat, len: nat, tot: nat, dst: seq<Byte>,
    grew: bool) {
    && Conserved(sb, s) && Conserved(sb, t) && ip < |s.ino| == |t.ino| && tot <= len && off + len <= s.ino[ip].size
    && t.ino[ip].size == s.ino[ip].size && t.ino[ip].kind == s.ino[ip].kind
    && (forall p: nat :: ByteAt(t, ip, p) == ByteAt(s, ip, p))
    && (tot < len ==> forall p: nat :: p >= off + tot ==> BlockOf(t, ip, p) == BlockOf(s, ip, p))
    && dst == Content(s, ip)[off..off+tot]
    && (grew <==> !NoHole(s, ip, off, tot)) && (!grew ==> t == s)
  }

  lemma ReadStart(sb: Super, s: Fs, ip: nat, off: nat, len: nat)
    requires Conserved(sb, s) && ip < |s.ino| && off + len <= s.ino[ip].size
    ensures ReadSofar(sb, s, s, ip, off, len, 0, [], false)
  {
    hide BlockOf, ByteAt;
  }

  /** One round of readi's loop. */
  lemma ReadNext(sb: Super, s: Fs, t: Fs, u: Fs, ip: nat, off: nat, len: nat, tot: nat, dst: seq<Byte>, grew: bool,
                 m: nat, addr: Word)
    requires ReadSofar(sb, s, t, ip, off, len, tot, dst, grew) && tot < len && Conserved(sb, u)
    requires Mapped(sb, t, u, ip, (off + tot) / BSIZE, addr)
    requires m == if len - tot < BSIZE - (off + tot) % BSIZE then len - tot else BSIZE - (off + tot) % BSIZE
    ensures addr < |u.disk| && 0 < m && tot + m <= len && (off + tot) % BSIZE + m <= BSIZE
    ensures var o, b := (off + tot) % BSIZE, BlockOf(t, ip, off + tot);
      ReadSofar(sb, s, u, ip, off, len, tot + m, dst + u.disk[addr][o..o+m], grew || b == 0)
  {
    hide Conserved, Mapped, BlockOf, ByteAt, NoHole;
    var p0, o := off + tot, (off + tot) % BSIZE;
    MappedThere(sb, t, u, ip, p0 / BSIZE, addr);
    assert p0 < MAXBYTES;
    BlockIs(sb, t, u, ip, p0, addr);
    forall p: nat ensures ByteAt(u, ip, p) == ByteAt(s, ip, p) { MappedBytes(sb, t, u, ip, p0 / BSIZE, addr, p); }
    var piece := u.disk[addr][o..o+m];
    forall p: nat | p0 <= p < p0 + m ensures ByteAt(u, ip, p) == piece[p-p0] { PieceByte(u, ip, p0, p, m, addr); }
    assert dst + piece == Content(s, ip)[off..off+tot+m];
    if tot + m < len {
      forall p: nat | p >= p0 + m ensures BlockOf(u, ip, p) == BlockOf(s, ip, p) {
        LaterBlock(sb, t, u, ip, p0, m, addr, p);
      }
    }
    HolesNext(s, t, ip, off, len, tot, m);
    MappedSame(sb, t, u, ip, p0, addr);
    MappedIno(sb, t, u, ip, p0 / BSIZE, addr);
  }

  lemma MappedIno(sb: Super, t: Fs, u: Fs, ip: nat, bn: nat, addr: Word)
    requires Mapped(sb, t, u, ip, bn, addr)
    ensures ip < |t.ino| == |u.ino| && u.ino[ip].size == t.ino[ip].size && u.ino[ip].kind == t.ino[ip].kind
  {
  }

  lemma MappedSame(sb: Super, t: Fs, u: Fs, ip: nat, p0: nat, addr: Word)
    requires Mapped(sb, t, u, ip, p0 / BSIZE, addr) && p0 < MAXBYTES
    ensures ip < |t.ino| && (BlockOf(t, ip, p0) != 0 ==> u == t)
  {
    hide Addr;
  }

  lemma PieceByte(u: Fs, ip: nat, p0: nat, p: nat, m: nat, addr: Word)
    requires ip < |u.ino| && p0 <= p < p0 + m && p0 % BSIZE + m <= BSIZE && p0 < MAXBYTES
    requires BlockOf(u, ip, p0) == addr && 0 < addr < |u.disk|
    ensures ByteAt(u, ip, p) == u.disk[addr][p0 % BSIZE..p0 % BSIZE + m][p-p0]
  {
    hide Addr;
    assert p / BSIZE == p0 / BSIZE && p % BSIZE == p0 % BSIZE + (p - p0);
  }

  lemma LaterBlock(sb: Super, t: Fs, u: Fs, ip: nat, p0: nat, m: nat, addr: Word, p: nat)
    requires Mapped(sb, t, u, ip, p0 / BSIZE, addr) && p0 < MAXBYTES && p >= p0 + m && m == BSIZE - p0 % BSIZE
    ensures ip < |t.ino| == |u.ino| && BlockOf(u, ip, p) == BlockOf(t, ip, p)
  {
    hide Addr;
    assert p / BSIZE > p0 / BSIZE;
  }

  lemma HolesNext(s: Fs, t: Fs, ip: nat, off: nat, len: nat, tot: nat, m: nat)
    requires ip < |s.ino| == |t.ino| && 0 < m && (off + tot) % BSIZE + m <= BSIZE && off + tot < MAXBYTES
    requires BlockOf(t, ip, off + tot) == BlockOf(s, ip, off + tot)
    ensures NoHole(s, ip, off, tot + m) <==> NoHole(s, ip, off, tot) && BlockOf(t, ip, off + tot) != 0
  {
    hide BlockOf;
    forall p: nat | off + tot <= p < off + tot + m ensures BlockOf(s, ip, p) == BlockOf(s, ip, off + tot) {
      BlockSame(s, ip, off + tot, p, m);
    }
  }

  lemma MappedThere(sb: Super, s: Fs, t: Fs, ip: nat, bn: nat, addr: Word)
    requires Mapped(sb, s, t, ip, bn, addr) && Conserved(sb, t)
    ensures 0 < addr < |t.disk| && sb.nmeta <= addr && bn < MAXFILE && ip < |s.ino|
  {
    hide Addr, Bits;
    assert Held(t.owner, addr, ip, DataSlot(bn)) && OwnedRight(sb, t, addr);
  }

  lemma OverwrittenTwice(c: seq<Byte>, off: nat, a: seq<Byte>, b: seq<Byte>)
    requires off <= |c|
    ensures off + |a| <= |Overwritten(c, off, a)|
    ensures Overwritten(Overwritten(c, off, a), off + |a|, b) == Overwritten(c, off, a + b)
  {
  }

  /** A write of at most `per` blocks' worth of bytes fits a transaction of 2 * per + 4 blocks. */
  lemma ChunkFits(off: nat, n: nat, per: nat)
    requires n <= per * BSIZE
    ensures WriteCost(off, n) <= 2 * per + 4
  {
    if n > 0 {
      var q, r := off / BSIZE, off % BSIZE;
      assert off + n - 1 == BSIZE * q + (r + n - 1);
      if r == 0 {
        assert (r + n - 1) / BSIZE <= per - 1;
      } else {
        assert (r + n - 1) / BSIZE <= per;
      }
      assert (off + n - 1) / BSIZE == q + (r + n - 1) / BSIZE;
    }
  }
}
