/**
  The block and inode layers of fs.c, over the disk as bread shows it: balloc,
  bfree, bmap, itrunc, readi, writei, iupdate, ilock.  `ok` is false where the
  kernel panics.
 */
module FileSystems {
  import opened Blocks
  import opened FsFormat
  import opened BlockOwners
  import opened FileContent

  class FileSystem {
    const sb: Super
    var disk: Disk
    var icache: map<nat, Inode>      // the in-memory copies that are valid
    ghost var ino: seq<Inode>
    ghost var owner: Owners
    ghost var logged: set<nat>       // what this transaction has passed to log_write
    ghost var calls: nat             // of log_write so far
    ghost var base: Disk             // the disk at begin_op

    ghost function View(): Fs
      reads this
    {
      Fs(disk, ino, owner, logged)
    }

    ghost predicate Valid()
      reads this
    {
      Conserved(sb, View()) && Cached(sb, View(), icache)
    }

    ghost predicate Covers()
      reads this
    {
      Covered(sb, base, disk, logged)
    }

    /** Mounting a disk image whose bitmap and inodes agree. */
    constructor (sb: Super, disk: Disk, ghost owner: Owners)
      requires OnDisk(sb, disk)
      requires Conserved(sb, Fs(disk, StoredInodes(sb, disk), owner, {}))
      ensures Valid() && this.sb == sb && this.disk == disk && ino == StoredInodes(sb, disk) && icache == map[]
    {
      this.sb, this.disk, icache := sb, disk, map[];
      ino, this.owner, logged, calls, base := StoredInodes(sb, disk), owner, {}, 0, disk;
    }

    // ---- blocks ----

    method LogWrite(b: nat, data: Block)
      requires b < |disk|
      modifies this`disk, this`logged, this`calls
      ensures disk == old(disk)[b := data] && logged == old(logged) + {b} && calls == old(calls) + 1
      ensures old(Covers()) && sb.inodestart <= b ==> Covers()
    {
      hide Covered;
      if Covers() && sb.inodestart <= b { CoveredNext(sb, base, disk, logged, b, data); }
      disk := disk[b := data];
      logged := logged + {b};
      calls := calls + 1;
    }

    method BeginOp()
      requires Valid()
      modifies this`logged, this`base
      ensures Valid() && logged == {} && base == disk && Covers()
    {
      hide Addr, Used, GetInode;
      ghost var s := View();
      logged, base := {}, disk;
      SameOwn(sb, s, View());
    }

    /** The lowest-numbered free block, marked and zeroed. */
    method Balloc() returns (ok: bool, b: Word)
      requires OnDisk(sb, disk)
      modifies this`disk, this`logged, this`calls
      ensures !ok ==> disk == old(disk) && logged == old(logged) && Full(sb, disk)
      ensures ok ==> b < sb.size && !Used(sb, old(disk), b) && forall c: nat :: c < b ==> Used(sb, old(disk), c)
      ensures ok ==> View() == Taken(sb, old(View()), b)
      ensures if ok then calls == old(calls) + 2 else calls == old(calls)
      ensures ok && sb.inodestart <= b && old(Covers()) ==> Covers()
    {
      hide Used, Bit, Marked, Covered;
      var first := 0;
      while first < sb.size
        invariant 0 <= first && first % BPB == 0 && disk == old(disk) && logged == old(logged) && calls == old(calls)
        invariant forall c: nat :: c < first && c < sb.size ==> Used(sb, disk, c)
      {
        var at := first / BPB + sb.bmapstart;
        BitmapBlock(sb, first);
        var data := disk[at];
        var bi := 0;
        while bi < BPB && first + bi < sb.size
          invariant 0 <= bi <= BPB && disk == old(disk) && logged == old(logged) && calls == old(calls)
          invariant forall c: nat :: c < first + bi && c < sb.size ==> Used(sb, disk, c)
        {
          UsedBit(sb, disk, first, bi);
          if !Bit(data[bi / 8], bi % 8) {
            b := first + bi;
            LogWrite(at, data[bi / 8 := SetBit(data[bi / 8], bi % 8)]);
            LogWrite(b, ZeroBlock());
            return true, b;
          }
          bi := bi + 1;
        }
        first := first + BPB;
      }
      return false, 0;
    }

    method Bfree(b: Word) returns (ok: bool)
      requires OnDisk(sb, disk) && b < sb.size
      modifies this`disk, this`logged, this`calls
      ensures ok <==> Used(sb, old(disk), b)
      ensures ok ==> disk == Marked(sb, old(disk), b, false) && logged == old(logged) + {BitBlock(sb, b)}
      ensures ok && old(Covers()) ==> Covers()
    {
      hide Covered;
      var at := BitBlock(sb, b);
      var data := disk[at];
      var bi := b % BPB;
      if !Bit(data[bi / 8], bi % 8) { return false; }
      LogWrite(at, data[bi / 8 := ClearBit(data[bi / 8], bi % 8)]);
      return true;
    }

    // ---- bmap ----

    method Bmap(ip: nat, bn: nat) returns (ok: bool, addr: Word)
      requires Valid() && ip in icache
      modifies this
      ensures ok ==> Valid() && icache.Keys == old(icache.Keys) && Mapped(sb, old(View()), View(), ip, bn, addr)
      ensures !ok ==> bn >= MAXFILE || (OnDisk(sb, disk) && Full(sb, disk))
      ensures ip < |old(ino)| && (bn < MAXFILE && Addr(old(disk), old(ino)[ip], DataSlot(bn)) != 0 ==> ok)
      ensures ok ==> (calls == old(calls) <==> Addr(old(disk), old(ino)[ip], DataSlot(bn)) != 0)
      ensures calls >= old(calls) && base == old(base) && (ok && old(Covers()) ==> Covers())
    {
      hide Used, Marked, Mapped, Grown, Own, Bits, Covered;
      ghost var s := View();
      if bn < NDIRECT {
        addr := icache[ip].addrs[bn];
        if addr == 0 {
          ok, addr := Balloc();
          if !ok { return; }
          FreeIsData(sb, s, addr);
          MappedDirect(sb, s, ip, bn, addr);
          SetAddr(ip, bn, addr);
          CachedMapped(sb, s, View(), ip, bn, addr, old(icache));
          return;
        }
        MappedAlready(sb, s, ip, bn);
        return true, addr;
      }
      if bn >= MAXFILE { return false, 0; }
      var at := icache[ip].addrs[NDIRECT];
      if at == 0 {
        ok, at := Balloc();
        if !ok { return false, 0; }
        FreeIsData(sb, s, at);
        StillHole(sb, s, ip, bn, at);
        AllocDirect(sb, s, ip, NDIRECT, at);
        SetAddr(ip, NDIRECT, at);
        CachedGrown(sb, s, View(), ip, old(icache));
        ok, addr := BmapEntry(ip, bn);
        if ok { MappedThrough(sb, s, View(), ip, bn, at, addr); }
        return;
      }
      ok, addr := BmapEntry(ip, bn);
    }

    /** The part of bmap that works on the indirect block. */
    method BmapEntry(ip: nat, bn: nat) returns (ok: bool, addr: Word)
      requires Valid() && ip in icache && NDIRECT <= bn < MAXFILE && icache[ip].addrs[NDIRECT] != 0
      modifies this
      ensures ok ==> Valid() && icache == old(icache) && Mapped(sb, old(View()), View(), ip, bn, addr)
      ensures !ok ==> OnDisk(sb, disk) && Full(sb, disk)
      ensures ip < |old(ino)| && (Addr(old(disk), old(ino)[ip], DataSlot(bn)) != 0 ==> ok)
      ensures ok ==> (calls == old(calls) <==> Addr(old(disk), old(ino)[ip], DataSlot(bn)) != 0)
      ensures calls >= old(calls) && base == old(base) && (ok && old(Covers()) ==> Covers())
    {
      hide Used, Marked, Mapped, Grown, Own, Bits, GetWord, PutWord, Covered;
      ghost var s := View();
      var at := icache[ip].addrs[NDIRECT];
      IndirectHeld(sb, s, ip);
      var a := disk[at];
      addr := GetWord(a, bn - NDIRECT);
      if addr == 0 {
        ok, addr := Balloc();
        if !ok { return; }
        FreeIsData(sb, s, addr);
        MappedEntry(sb, s, ip, bn, addr);
        EntryKept(sb, s, ip, bn, addr);
        LogWrite(at, PutWord(a, bn - NDIRECT, addr));
        owner := owner[addr := (ip, bn + 1)];
        CachedMapped(sb, s, View(), ip, bn, addr, icache);
        return;
      }
      MappedAlready(sb, s, ip, bn);
      return true, addr;
    }

    // ---- inodes ----

    method Iupdate(ip: nat)
      requires Valid() && ip in icache
      modifies this`disk, this`logged, this`calls
      ensures Valid() && Stored(sb, disk, ip) == icache[ip] && (old(Covers()) ==> Covers())
      ensures disk == Store(sb, old(disk), ip, icache[ip]) && logged == old(logged) + {InodeBlock(sb, ip)}
    {
      hide Own, Bits, Covered;
      ghost var s := View();
      StoreKeeps(sb, s, ip);
      var at := InodeBlock(sb, ip);
      var data := disk[at];
      LogWrite(at, PutInode(data, ip % IPB, icache[ip]));
    }

    /** Makes the in-memory copy valid; panics on a free inode. */
    method Ilock(ip: nat) returns (ok: bool)
      requires Valid() && ip < sb.ninodes
      modifies this`icache
      ensures Valid() && ip in icache && icache == old(icache)[ip := ino[ip]]
      ensures ok <==> ip in old(icache) || ino[ip].kind != 0
    {
      hide Own, Bits, GetInode;
      ok := true;
      if ip !in icache {
        icache := icache[ip := GetInode(disk[InodeBlock(sb, ip)], ip % IPB)];
        if icache[ip].kind == 0 { ok := false; }
      }
    }

    /** Frees exactly the blocks of the inode; never finds one of them free already. */
    method Itrunc(ip: nat) returns (ok: bool)
      requires Valid() && ip in icache
      modifies this
      ensures ok && Valid() && icache.Keys == old(icache.Keys) && Truncated(sb, old(View()), View(), ip)
      ensures Stored(sb, disk, ip) == ino[ip]
      ensures logged == old(logged) + BitsOf(sb, old(owner), ip, 0, SLOTS) + {InodeBlock(sb, ip)}
      ensures base == old(base) && (old(Covers()) ==> Covers())
    {
      hide Trimming, Own, Bits, Cached, Truncated, Store, Covered, BitsOf, Rest;
      ghost var s := View();
      ok := FreeDirect(ip);
      ghost var t := View();
      TrimEnd(sb, s, t, ip);
      BitsOfSplit(sb, s.owner, ip, 0, NDIRECT, SLOTS);
      TrimOwner(sb, s, t, ip);
      if icache[ip].addrs[NDIRECT] != 0 {
        ok := FreeIndirect(ip);
      }
      ghost var u := View();
      icache := icache[ip := icache[ip].(size := 0)];
      ino := ino[ip := icache[ip]];
      ghost var w := View();
      TruncDone(sb, s, t, u, ip);
      TruncCached(sb, s, w, ip, old(icache));
      assert icache == old(icache)[ip := w.ino[ip]];
      Iupdate(ip);
      TruncStored(sb, s, w, View(), ip);
      ok := true;
    }

    method FreeDirect(ip: nat) returns (ok: bool)
      requires Valid() && ip in icache
      modifies this
      ensures ok && Trimming(sb, old(View()), View(), ip, NDIRECT) && ip < |ino| && icache == old(icache)[ip := ino[ip]]
      ensures logged == old(logged) + BitsOf(sb, old(owner), ip, 0, NDIRECT)
      ensures base == old(base) && (old(Covers()) ==> Covers())
    {
      hide Trimming, Marked, Used, Own, Bits, Rest, Covered, BitsOf;
      ghost var s := View();
      TrimStart(sb, s, ip);
      BitsOfNext(sb, s, ip, 0, 0);
      assert icache == icache[ip := ino[ip]];
      var i := 0;
      while i < NDIRECT
        invariant 0 <= i <= NDIRECT && Trimming(sb, s, View(), ip, i)
        invariant ip < |ino| && icache == old(icache)[ip := ino[ip]]
        invariant logged == s.logged + BitsOf(sb, s.owner, ip, 0, i)
        invariant base == old(base) && (old(Covers()) ==> Covers())
      {
        TrimNext(sb, s, View(), ip, i);
        BitsOfNext(sb, s, ip, 0, i);
        if icache[ip].addrs[i] != 0 {
          ok := Bfree(icache[ip].addrs[i]);
          if !ok { return; }
          icache := icache[ip := icache[ip].(addrs := icache[ip].addrs[i := 0])];
          ino, owner := ino[ip := icache[ip]], Rest(owner, ip, i, i + 1);
        }
        i := i + 1;
      }
      ok := true;
    }

    method FreeIndirect(ip: nat) returns (ok: bool)
      requires Conserved(sb, View()) && ip in icache && ip < |ino| && icache[ip] == ino[ip]
        && ino[ip].addrs[NDIRECT] != 0
      modifies this
      ensures ok && Conserved(sb, View())
      ensures ino == old(ino)[ip := old(ino)[ip].(addrs := old(ino)[ip].addrs[NDIRECT := 0])]
      ensures owner == Rest(old(owner), ip, NDIRECT, SLOTS) && icache == old(icache)[ip := ino[ip]]
      ensures forall c: nat :: c < sb.size && !(sb.bmapstart <= c < sb.nmeta) ==> disk[c] == old(disk)[c]
      ensures logged == old(logged) + BitsOf(sb, old(owner), ip, NDIRECT, SLOTS)
      ensures base == old(base) && (old(Covers()) ==> Covers())
    {
      hide Emptying, Marked, Used, Own, Bits, GetWord, Covered, BitsOf;
      ghost var s := View();
      IndirectHeld(sb, s, ip);
      EmptyStart(sb, s, ip);
      BitsOfNext(sb, s, ip, NDIRECT, NDIRECT);
      BitsOfSplit(sb, s.owner, ip, NDIRECT, NDIRECT + 1, SLOTS);
      BitsOfNext(sb, s, ip, NDIRECT + 1, NDIRECT + 1);
      var at := icache[ip].addrs[NDIRECT];
      var a := disk[at];
      var j := 0;
      while j < NINDIRECT
        invariant 0 <= j <= NINDIRECT && Emptying(sb, s, View(), ip, j)
        invariant icache == old(icache) && ino == s.ino && owner == s.owner
        invariant logged == s.logged + BitsOf(sb, s.owner, ip, NDIRECT + 1, NDIRECT + 1 + j)
        invariant base == old(base) && (old(Covers()) ==> Covers())
      {
        EmptyNext(sb, s, View(), ip, j);
        BitsOfNext(sb, s, ip, NDIRECT + 1, NDIRECT + 1 + j);
        if GetWord(a, j) != 0 {
          EmptyingDisk(sb, s, View(), ip, j);
          ok := Bfree(GetWord(a, j));
          if !ok { return; }
        }
        j := j + 1;
      }
      EmptyDone(sb, s, View(), ip);
      EmptyingDisk(sb, s, View(), ip, j);
      ok := Bfree(at);
      if !ok { return; }
      icache := icache[ip := icache[ip].(addrs := icache[ip].addrs[NDIRECT := 0])];
      ino, owner := ino[ip := icache[ip]], Rest(owner, ip, NDIRECT, SLOTS);
    }

    // ---- file content ----

    method Writei(ip: nat, src: seq<Byte>, off: Word) returns (ok: bool, r: WriteResult)
      requires Valid() && ip in icache && |src| < 0x1_0000_0000
      modifies this
      ensures ok ==> Valid() && icache.Keys == old(icache.Keys)
      ensures !ok ==> OnDisk(sb, disk) && Full(sb, disk)
      ensures ok ==>
        var d := old(icache)[ip];
        if d.kind == T_DEV then r == ToDevice && View() == old(View())
        else if Refuses(d, off, |src|) then r == Refused && View() == old(View())
        else r == Accepted(|src|) && Wrote(sb, old(View()), View(), ip, off, src)
      ensures base == old(base) && (ok && old(Covers()) ==> Covers())
    {
      hide Own, Bits, Writing, Wrote, Cached, Store, Full, Covered;
      ghost var s := View();
      CacheHit(sb, s, icache, ip);
      if icache[ip].kind == T_DEV { return true, ToDevice; }
      if off > icache[ip].size || (off + |src|) % 0x1_0000_0000 < off { return true, Refused; }
      if off + |src| > MAXBYTES { return true, Refused; }
      ghost var n;
      ok, n := CopyIn(ip, src, off);
      if !ok { return false, Refused; }
      ghost var t := View();
      WritingState(sb, s, t, ip, off, src, |src|, n);
      CacheHit(sb, t, icache, ip);
      if |src| > 0 && off + |src| > icache[ip].size {
        ResizedWrote(sb, s, t, ip, off, src, n);
        SizedValid(sb, t, ip, icache, off + |src|);
        icache := icache[ip := icache[ip].(size := off + |src|)];
        ino := ino[ip := icache[ip]];
        Iupdate(ip);
      } else {
        NotResized(sb, s, t, ip, off, src, n);
      }
      return true, Accepted(|src|);
    }

    /** writei's loop. */
    method CopyIn(ip: nat, src: seq<Byte>, off: Word) returns (ok: bool, ghost n: nat)
      requires Valid() && ip in icache && off + |src| <= MAXBYTES
      modifies this
      ensures !ok ==> OnDisk(sb, disk) && Full(sb, disk)
      ensures ok ==>
        Valid() && icache.Keys == old(icache.Keys) && Writing(sb, old(View()), View(), ip, off, src, |src|, n)
      ensures base == old(base) && (ok && old(Covers()) ==> Covers())
    {
      hide Own, Bits, Writing, Mapped, Cached, Full, Covered;
      ghost var s := View();
      n := 0;
      CacheHit(sb, s, icache, ip);
      WriteStart(sb, s, ip, off, src);
      var tot := 0;
      while tot < |src|
        invariant 0 <= tot <= |src| && Valid() && icache.Keys == old(icache.Keys)
        invariant Writing(sb, s, View(), ip, off, src, tot, n)
        invariant base == old(base) && (old(Covers()) ==> Covers())
        decreases |src| - tot
      {
        ghost var t := View();
        var addr;
        ok, addr := Bmap(ip, (off + tot) / BSIZE);
        if !ok { return; }
        var o := (off + tot) % BSIZE;
        var m := if |src| - tot < BSIZE - o then |src| - tot else BSIZE - o;
        ghost var u := View();
        WriteNext(sb, s, t, u, ip, off, src, tot, n, m, addr);
        LogWrite(addr, disk[addr][..o] + src[tot..tot+m] + disk[addr][o+m..]);
        tot, n := tot + m, n + 1;
        WritingState(sb, s, View(), ip, off, src, tot, n);
        CachedFrame(sb, u, View(), icache);
      }
      ok := true;
    }

    /**
      The bytes asked for that are there, a hole reading as zeros.  It calls log_write,
      which panics outside a transaction, exactly if the range has a hole.
     */
    method Readi(ip: nat, off: Word, n: Word) returns (ok: bool, r: ReadResult)
      requires Valid() && ip in icache
      modifies this
      ensures ok ==> Valid() && icache.Keys == old(icache.Keys)
      ensures ip < |old(ino)| && (ok ==> Reads(old(View()), ip, off, n, r))
      ensures ok ==> ip < |ino| && ino[ip].kind == old(ino)[ip].kind && Content(View(), ip) == Content(old(View()), ip)
      ensures ok ==> (calls == old(calls) <==> WholeRange(old(View()), ip, off, n))
      ensures WholeRange(old(View()), ip, off, n) ==> ok && View() == old(View())
      ensures !ok ==> old(icache)[ip].size > MAXBYTES || (OnDisk(sb, disk) && Full(sb, disk))
    {
      hide Own, Bits, Content, NoHole, Full;
      CacheHit(sb, View(), icache, ip);
      if icache[ip].kind == T_DEV { return true, FromDevice; }
      if off > icache[ip].size || (off + n) % 0x1_0000_0000 < off { return true, Bad; }
      var len := if off + n > icache[ip].size then icache[ip].size - off else n;
      var dst;
      ok, dst := CopyOut(ip, off, len);
      return ok, Data(dst);
    }

    /** readi's loop. */
    method CopyOut(ip: nat, off: nat, len: nat) returns (ok: bool, dst: seq<Byte>)
      requires Valid() && ip in icache && off + len <= icache[ip].size
      modifies this
      ensures ok ==> Valid() && icache.Keys == old(icache.Keys)
      ensures ip < |old(ino)| && (ok ==> dst == Content(old(View()), ip)[off..off+len])
      ensures ok ==> ip < |ino| && ino[ip].kind == old(ino)[ip].kind && Content(View(), ip) == Content(old(View()), ip)
      ensures ok ==> (calls == old(calls) <==> NoHole(old(View()), ip, off, len))
      ensures NoHole(old(View()), ip, off, len) ==> ok && View() == old(View())
      ensures !ok ==> old(icache)[ip].size > MAXBYTES || (OnDisk(sb, disk) && Full(sb, disk))
    {
      hide Own, Bits, Mapped, Full, Cached, ReadSofar, Content, Addr, NoHole;
      ghost var s := View();
      CacheHit(sb, s, icache, ip);
      ReadStart(sb, s, ip, off, len);
      var tot := 0;
      dst := [];
      while tot < len
        invariant 0 <= tot <= len && Valid() && icache.Keys == old(icache.Keys) && calls >= old(calls)
        invariant ReadSofar(sb, s, View(), ip, off, len, tot, dst, calls != old(calls))
        decreases len - tot
      {
        var o := (off + tot) % BSIZE;
        var m := if len - tot < BSIZE - o then len - tot else BSIZE - o;
        ghost var t, c := View(), calls;
        ReadHere(sb, s, t, ip, off, len, tot, dst, c != old(calls));
        var addr;
        ok, addr := Bmap(ip, (off + tot) / BSIZE);
        if !ok { return; }
        MappedThere(sb, t, View(), ip, (off + tot) / BSIZE, addr);
        ReadNext(sb, s, t, View(), ip, off, len, tot, dst, c != old(calls), m, addr);
        dst := dst + disk[addr][o..o+m];
        tot := tot + m;
      }
      ReadDone(sb, s, View(), ip, off, len, dst, calls != old(calls));
      ok := true;
    }

    /** ip->addrs[k] = addr, in memory only. */
    method SetAddr(ip: nat, k: nat, addr: Word)
      requires ip in icache && ip < |ino| && k <= NDIRECT && icache[ip] == ino[ip]
      modifies this`icache, this`ino, this`owner
      ensures View() == GiveDirect(old(View()), ip, k, addr)
      ensures icache == old(icache)[ip := ino[ip]]
    {
      icache := icache[ip := icache[ip].(addrs := icache[ip].addrs[k := addr])];
      ino := ino[ip := icache[ip]];
      owner := owner[addr := (ip, k)];
    }
  }

  ghost function StoredInodes(sb: Super, disk: Disk): seq<Inode>
    requires OnDisk(sb, disk)
  {
    seq(sb.ninodes, i requires 0 <= i < sb.ninodes => Stored(sb, disk, i))
  }

  /** The in-memory copies are current; an inode without one is on the disk. */
  ghost predicate Cached(sb: Super, s: Fs, icache: map<nat, Inode>)
    requires OnDisk(sb, s.disk) && |s.ino| == sb.ninodes
  {
    && (forall i: nat :: i in icache ==> i < sb.ninodes && icache[i] == s.ino[i])
    && (forall i: nat :: i < sb.ninodes && i !in icache ==> Stored(sb, s.disk, i) == s.ino[i])
  }

  lemma CachedGrown(sb: Super, s: Fs, t: Fs, ip: nat, icache: map<nat, Inode>)
    requires OnDisk(sb, s.disk) && |s.ino| == sb.ninodes && Cached(sb, s, icache) && Grown(sb, s, t, ip) && ip in icache
    ensures Cached(sb, t, icache[ip := t.ino[ip]])
  {
    hide GetInode;
  }

  lemma CachedMapped(sb: Super, s: Fs, t: Fs, ip: nat, bn: nat, addr: Word, icache: map<nat, Inode>)
    requires OnDisk(sb, s.disk) && |s.ino| == sb.ninodes && Cached(sb, s, icache) && Mapped(sb, s, t, ip, bn, addr)
    requires ip in icache
    ensures Cached(sb, t, icache[ip := t.ino[ip]])
  {
    CachedGrown(sb, s, t, ip, icache);
  }

  lemma EntryKept(sb: Super, s: Fs, ip: nat, bn: nat, b: Word)
    requires Conserved(sb, s) && ip < |s.ino| && NDIRECT <= bn < MAXFILE && s.ino[ip].addrs[NDIRECT] != 0
    requires Addr(s.disk, s.ino[ip], DataSlot(bn)) == 0 && b < sb.size && !Used(sb, s.disk, b)
    ensures s.ino[ip].addrs[NDIRECT] < sb.size
    ensures |Taken(sb, s, b).disk| == |s.disk|
    ensures Taken(sb, s, b).disk[s.ino[ip].addrs[NDIRECT]] == s.disk[s.ino[ip].addrs[NDIRECT]]
  {
    AllocEntry(sb, s, ip, bn - NDIRECT, b);
  }

  lemma StoreKeeps(sb: Super, s: Fs, ip: nat)
    requires Conserved(sb, s) && ip < sb.ninodes
    ensures InodeBlock(sb, ip) < sb.bmapstart
    ensures Conserved(sb, Fs(Store(sb, s.disk, ip, s.ino[ip]), s.ino, s.owner, s.logged + {InodeBlock(sb, ip)}))
  {
    hide Used, Stored;
    var t := Fs(Store(sb, s.disk, ip, s.ino[ip]), s.ino, s.owner, s.logged + {InodeBlock(sb, ip)});
    OwnedData(sb, s);
    OwnFrame(sb, s, t);
    BitsFrame(sb, s.disk, t.disk, s.owner.Keys);
  }

  lemma EmptyingDisk(sb: Super, s: Fs, t: Fs, ip: nat, j: nat)
    requires Emptying(sb, s, t, ip, j)
    ensures OnDisk(sb, t.disk)
  {
  }

  /** What itrunc does: the inode and only it loses everything, its blocks and no others are free again. */
  ghost predicate Truncated(sb: Super, s: Fs, t: Fs, ip: nat) {
    && OnDisk(sb, s.disk) && OnDisk(sb, t.disk) && ip < |s.ino|
    && t.ino == s.ino[ip := s.ino[ip].(size := 0, addrs := seq(NDIRECT + 1, k => 0))]
    && t.owner == Rest(s.owner, ip, 0, SLOTS)
    && (forall b: nat :: b < sb.size ==>
          (Used(sb, t.disk, b) <==> Used(sb, s.disk, b) && !(b in s.owner && s.owner[b].0 == ip)))
    && forall b: nat :: sb.nmeta <= b < sb.size ==> t.disk[b] == s.disk[b]
  }

  /** After itrunc the file is empty, and every other file has the bytes it had. */
  lemma TruncatedContent(sb: Super, s: Fs, t: Fs, ip: nat, j: nat)
    requires Truncated(sb, s, t, ip) && Conserved(sb, s) && Conserved(sb, t) && j < |s.ino|
    ensures ip < |t.ino| == |s.ino| && Content(t, ip) == [] && (j != ip ==> Content(t, j) == Content(s, j))
  {
    hide Addr, Bits, Used;
    if j != ip {
      forall p: nat ensures ByteAt(t, j, p) == ByteAt(s, j, p) {
        if p < MAXBYTES { TruncatedOther(sb, s, t, ip, j, DataSlot(p / BSIZE)); }
      }
    }
  }

  lemma TruncatedOther(sb: Super, s: Fs, t: Fs, ip: nat, j: nat, k: nat)
    requires Truncated(sb, s, t, ip) && Conserved(sb, s) && Conserved(sb, t) && j < |s.ino| && j != ip && k < SLOTS
    ensures j < |t.ino|
    ensures var a := Addr(s.disk, s.ino[j], k);
      Addr(t.disk, t.ino[j], k) == a && (a != 0 ==> a < |s.disk| == |t.disk| && t.disk[a] == s.disk[a])
  {
    hide Addr, Bits, Used;
    var a, b := Addr(s.disk, s.ino[j], k), Addr(t.disk, t.ino[j], k);
    if a != 0 {
      assert Held(s.owner, a, j, k) && OwnedRight(sb, s, a);
      assert Held(t.owner, a, j, k) && OwnedRight(sb, t, a);
    }
    if b != 0 { assert Held(t.owner, b, j, k) && OwnedRight(sb, s, b); }
  }

  lemma TrimEnd(sb: Super, s: Fs, t: Fs, ip: nat)
    requires Trimming(sb, s, t, ip, NDIRECT)
    ensures Conserved(sb, t) && ip < |t.ino|
    ensures t.ino[ip].addrs[NDIRECT] == 0 ==>
      && t.ino == t.ino[ip := t.ino[ip].(addrs := t.ino[ip].addrs[NDIRECT := 0])]
      && t.owner == Rest(t.owner, ip, NDIRECT, SLOTS)
  {
    hide Bits, Cleared;
    if t.ino[ip].addrs[NDIRECT] == 0 {
      assert t.ino[ip].addrs == t.ino[ip].addrs[NDIRECT := 0];
      forall b: nat | b in t.owner ensures !(t.owner[b].0 == ip && NDIRECT <= t.owner[b].1 < SLOTS) {
        assert OwnedRight(sb, t, b);
      }
    }
  }

  lemma TruncDone(sb: Super, s: Fs, t: Fs, u: Fs, ip: nat)
    requires Trimming(sb, s, t, ip, NDIRECT) && Conserved(sb, u)
    requires u.ino == t.ino[ip := t.ino[ip].(addrs := t.ino[ip].addrs[NDIRECT := 0])]
    requires u.owner == Rest(t.owner, ip, NDIRECT, SLOTS)
    requires forall c: nat :: c < sb.size && !(sb.bmapstart <= c < sb.nmeta) ==> u.disk[c] == t.disk[c]
    ensures var w := Fs(u.disk, u.ino[ip := u.ino[ip].(size := 0)], u.owner, u.logged);
      && Conserved(sb, w) && Truncated(sb, s, w, ip)
      && forall c: nat :: c < sb.bmapstart ==> w.disk[c] == s.disk[c]
  {
    hide Used;
    var w := Fs(u.disk, u.ino[ip := u.ino[ip].(size := 0)], u.owner, u.logged);
    ClearedNext(s.ino[ip], NDIRECT);
    assert Cleared(s.ino[ip], NDIRECT + 1).addrs == seq(NDIRECT + 1, k => 0);
    assert w.ino == s.ino[ip := s.ino[ip].(size := 0, addrs := seq(NDIRECT + 1, k => 0))];
    assert w.owner == Rest(s.owner, ip, 0, SLOTS) by { SlotsBelow(sb, s); }
    SizeAddrs(u, w, ip);
    SameOwn(sb, u, w);
  }

  lemma SlotsBelow(sb: Super, s: Fs)
    requires Own(sb, s)
    ensures forall b: nat :: b in s.owner ==> s.owner[b].1 < SLOTS
  {
    forall b: nat | b in s.owner ensures s.owner[b].1 < SLOTS { assert OwnedRight(sb, s, b); }
  }

  lemma TruncCached(sb: Super, s: Fs, w: Fs, ip: nat, icache: map<nat, Inode>)
    requires OnDisk(sb, s.disk) && |s.ino| == sb.ninodes && Cached(sb, s, icache) && Truncated(sb, s, w, ip)
      && ip in icache
    requires forall c: nat :: c < sb.bmapstart ==> w.disk[c] == s.disk[c]
    ensures Cached(sb, w, icache[ip := w.ino[ip]])
  {
    hide GetInode, Used;
  }

  lemma TruncStored(sb: Super, s: Fs, w: Fs, x: Fs, ip: nat)
    requires Truncated(sb, s, w, ip) && x.ino == w.ino && x.owner == w.owner && ip < sb.ninodes
    requires x.disk == Store(sb, w.disk, ip, w.ino[ip])
    ensures Truncated(sb, s, x, ip)
  {
    hide Used, Stored;
    forall b: nat | b < sb.size ensures Used(sb, x.disk, b) <==> Used(sb, w.disk, b) {
      UsedFrame(sb, w.disk, x.disk, b);
    }
  }

  datatype WriteResult = Accepted(n: nat) | Refused | ToDevice

  /** The checks at the top of writei, with the 32-bit sum. */
  predicate Refuses(d: Inode, off: Word, n: nat) {
    off > d.size || (off + n) % 0x1_0000_0000 < off || off + n > MAXBYTES
  }

  lemma CacheHit(sb: Super, s: Fs, icache: map<nat, Inode>, ip: nat)
    requires OnDisk(sb, s.disk) && |s.ino| == sb.ninodes && Cached(sb, s, icache) && ip in icache
    ensures ip < |s.ino| && icache[ip] == s.ino[ip]
  {
  }

  lemma CachedFrame(sb: Super, s: Fs, t: Fs, icache: map<nat, Inode>)
    requires OnDisk(sb, s.disk) && |s.ino| == sb.ninodes && Cached(sb, s, icache) && t.ino == s.ino
      && |t.disk| == |s.disk|
    requires forall c: nat :: c < sb.bmapstart ==> t.disk[c] == s.disk[c]
    ensures Cached(sb, t, icache)
  {
    hide GetInode;
  }

  lemma WritingState(sb: Super, s: Fs, t: Fs, ip: nat, off: nat, src: seq<Byte>, tot: nat, n: nat)
    requires Writing(sb, s, t, ip, off, src, tot, n)
    ensures Conserved(sb, t) && ip < |s.ino| == |t.ino| && t.ino[ip].size == s.ino[ip].size
  {
  }

  lemma SizedValid(sb: Super, t: Fs, ip: nat, icache: map<nat, Inode>, size: Word)
    requires Conserved(sb, t) && ip < |t.ino| && ip in icache && Cached(sb, t, icache)
    ensures var d := t.ino[ip].(size := size);
      var w := Fs(t.disk, t.ino[ip := d], t.owner, t.logged);
      Conserved(sb, w) && Cached(sb, w, icache[ip := d])
  {
    hide Own, Bits, GetInode;
    var w := Fs(t.disk, t.ino[ip := t.ino[ip].(size := size)], t.owner, t.logged);
    SizeAddrs(t, w, ip);
    SameOwn(sb, t, w);
  }

  /** What the next round of readi's loop asks bmap for. */
  lemma ReadHere(sb: Super, s: Fs, t: Fs, ip: nat, off: nat, len: nat, tot: nat, dst: seq<Byte>, grew: bool)
    requires ReadSofar(sb, s, t, ip, off, len, tot, dst, grew) && tot < len
    ensures ip < |s.ino| == |t.ino|
    ensures off + tot < MAXBYTES ==>
      (off + tot) / BSIZE < MAXFILE
        && BlockOf(t, ip, off + tot) == Addr(t.disk, t.ino[ip], DataSlot((off + tot) / BSIZE))
    ensures off + tot >= MAXBYTES ==> s.ino[ip].size > MAXBYTES
    ensures NoHole(s, ip, off, len) ==> off + tot < MAXBYTES && BlockOf(t, ip, off + tot) != 0
  {
    hide Addr;
    assert NoHole(s, ip, off, len) ==> BlockOf(s, ip, off + tot) != 0;
  }

  lemma ReadDone(sb: Super, s: Fs, t: Fs, ip: nat, off: nat, len: nat, dst: seq<Byte>, grew: bool)
    requires ReadSofar(sb, s, t, ip, off, len, len, dst, grew)
    ensures ip < |s.ino| && off + len <= s.ino[ip].size && dst == Content(s, ip)[off..off+len]
    ensures (grew <==> !NoHole(s, ip, off, len)) && (!grew ==> t == s)
    ensures ip < |t.ino| && t.ino[ip].kind == s.ino[ip].kind && Content(t, ip) == Content(s, ip)
  {
  }

  lemma FreeIsData(sb: Super, s: Fs, b: nat)
    requires Conserved(sb, s) && b < sb.size && !Used(sb, s.disk, b)
    ensures sb.inodestart <= sb.nmeta <= b
  {
    hide Used;
  }

  lemma StillHole(sb: Super, s: Fs, ip: nat, bn: nat, b: Word)
    requires Conserved(sb, s) && ip < |s.ino| && NDIRECT <= bn < MAXFILE && s.ino[ip].addrs[NDIRECT] == 0
    ensures Addr(s.disk, s.ino[ip], DataSlot(bn)) == 0
  {
  }

  lemma TrimOwner(sb: Super, s: Fs, t: Fs, ip: nat)
    requires Trimming(sb, s, t, ip, NDIRECT)
    ensures t.owner == Rest(s.owner, ip, 0, NDIRECT) && ip < |t.ino|
    ensures t.ino[ip].addrs[NDIRECT] == 0 ==> BitsOf(sb, t.owner, ip, NDIRECT, SLOTS) == {}
  {
    forall b: nat | b in t.owner ensures OwnedRight(sb, t, b) {}
  }

  datatype ReadResult = Data(bytes: seq<Byte>) | Bad | FromDevice

  /**
    What a read of n bytes at off answers: an error exactly past the end of the file
    or past 2^32, and otherwise the file's bytes from off on, as many as asked for
    or as there are.
   */
  ghost predicate Reads(s: Fs, ip: nat, off: Word, n: Word, r: ReadResult)
    requires ip < |s.ino|
  {
    var d := s.ino[ip];
    && (r == FromDevice <==> d.kind == T_DEV)
    && (r == Bad <==> d.kind != T_DEV && (off > d.size || off + n >= 0x1_0000_0000))
    && (r.Data? ==>
          && |r.bytes| <= n && off + |r.bytes| <= d.size && (|r.bytes| < n ==> off + |r.bytes| == d.size)
          && forall k :: 0 <= k < |r.bytes| ==> r.bytes[k] == Content(s, ip)[off + k])
  }

  /** The part of the range that readi looks at has no hole; a request it turns down looks at nothing. */
  ghost predicate WholeRange(s: Fs, ip: nat, off: Word, n: Word)
    requires ip < |s.ino|
  {
    var d := s.ino[ip];
    if d.kind == T_DEV || off > d.size || (off + n) % 0x1_0000_0000 < off then true
    else NoHole(s, ip, off, if off + n > d.size then d.size - off else n)
  }

  ghost predicate Full(sb: Super, disk: Disk)
    requires OnDisk(sb, disk)
  {
    forall c: nat :: c < sb.size ==> Used(sb, disk, c)
  }

  lemma BitmapBlock(sb: Super, base: nat)
    requires Layout(sb) && base < sb.size
    ensures base / BPB + sb.bmapstart < sb.nmeta <= sb.size
  {
  }

  /** The bit that balloc looks at in its inner loop, and what setting it gives. */
  lemma UsedBit(sb: Super, disk: Disk, base: nat, bi: nat)
    requires OnDisk(sb, disk) && base % BPB == 0 && bi < BPB && base + bi < sb.size
    ensures base / BPB + sb.bmapstart == BitBlock(sb, base + bi) < |disk|
    ensures var at := BitBlock(sb, base + bi);
      && (Used(sb, disk, base + bi) <==> Bit(disk[at][bi / 8], bi % 8))
      && disk[at := disk[at][bi / 8 := SetBit(disk[at][bi / 8], bi % 8)]] == Marked(sb, disk, base + bi, true)
  {
    hide Bit, SetBit;
    assert (base + bi) % BPB == bi && (base + bi) / BPB == base / BPB;
  }
}
