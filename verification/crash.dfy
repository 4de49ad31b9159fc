/**
  A crash anywhere in a long write.  filewrite cuts the data into transactions, each
  transaction is a commit of the redo log, and recovery may itself be cut: together
  they leave the file with the data up to some chunk boundary, and nothing else changed.
 */
module CrashedWrites {
  import opened Blocks
  import opened Seqs
  import opened FsFormat
  import opened BlockOwners
  import opened FileContent
  import opened FileSystems
  import opened OpenFiles
  import L = LogRecovery
  import K = KernelLog

  /** The log lies between the superblock and the inodes and has room for an operation. */
  ghost predicate LogFits(sb: Super, g: L.Area) {
    && Layout(sb) && L.Fits(g, sb.size) && g.start + g.size <= sb.inodestart
    && L.MAXOPBLOCKS < g.size && L.MAXOPBLOCKS <= L.LOGSIZE
  }

  /** e commits the transaction that ends in state u: its blocks in some order, with their content. */
  ghost predicate Commits(e: L.Event, u: Fs) {
    && e.Commit? && NoDup(e.lh) && Elements(e.lh) == u.logged
    && (forall i :: 0 <= i < |e.lh| ==> e.lh[i] < |u.disk|)
    && e.data == K.Contents(u.disk, e.lh)
  }

  ghost predicate Uncut(e: L.Event) {
    e.Commit? && e.cut == if e.lh == [] then 0 else 2 * |e.lh| + 2
  }

  ghost predicate Down(es: seq<L.Event>) {
    forall i :: 0 <= i < |es| ==> !es[i].Commit?
  }

  /**
    The commits of es are those of the states after trail[0], in order, as far as the
    kernel gets: once one is cut, or the power fails, there are only recoveries.
   */
  ghost predicate Follows(es: seq<L.Event>, trail: seq<Fs>)
    decreases |es|
  {
    es == [] || Down(es)
    || (|trail| > 1 && Commits(es[0], trail[1]) && if Uncut(es[0]) then Follows(es[1..], trail[1..]) else Down(es[1..]))
  }

  /** How many transactions of es have their header on disk. */
  ghost function Reached(es: seq<L.Event>): nat
    decreases |es|
  {
    if es == [] || !es[0].Commit? then 0
    else if Uncut(es[0]) then 1 + Reached(es[1..])
    else if es[0].cut > |es[0].lh| then 1 else 0
  }

  /** Every transaction of the trail can be committed. */
  lemma TxnFits(sb: Super, g: L.Area, s: Fs, t: Fs, u: Fs, ip: nat, e: L.Event)
    requires LogFits(sb, g) && TrailStep(sb, s, t, u, ip) && HoleFree(s, ip) && Commits(e, u)
    ensures L.GoodTxn(g, sb.size, e.lh) && |e.data| == |e.lh|
  {
    ElementsCount(e.lh);
    forall i | 0 <= i < |e.lh| ensures sb.inodestart <= e.lh[i] < sb.size { assert e.lh[i] in Elements(e.lh); }
  }

  // ---- from disk to disk ----

  /** Installing what a transaction logged gives its disk. */
  lemma InstalledIs(sb: Super, g: L.Area, d: Disk, t: Fs, u: Fs, e: L.Event)
    requires LogFits(sb, g) && L.SameHome(g, d, t.disk) && Covered(sb, t.disk, u.disk, u.logged) && Commits(e, u)
    ensures L.SameHome(g, L.Installed(d, e.lh, e.data), u.disk)
  {
    forall b | 0 <= b < |d| && !L.InLog(g, b) ensures L.Installed(d, e.lh, e.data)[b] == u.disk[b] {
      L.InstalledBlock(d, e.lh, e.data, b);
      if b in e.lh {
        var i :| 0 <= i < |e.lh| && e.lh[i] == b;
      } else {
        assert b !in Elements(e.lh);
      }
    }
  }

  lemma {:induction false} DurableDown(d: Disk, es: seq<L.Event>)
    requires Down(es)
    ensures L.Durable(d, es) == d
    decreases |es|
  {
    if es != [] { DurableDown(d, es[1..]); }
  }

  ghost predicate Chain(sb: Super, trail: seq<Fs>) {
    forall j :: 0 < j < |trail| ==> Covered(sb, trail[j-1].disk, trail[j].disk, trail[j].logged)
  }

  /** The durable disk is one of the disks between the transactions. */
  lemma {:induction false} DurableTrail(sb: Super, g: L.Area, d: Disk, es: seq<L.Event>, trail: seq<Fs>)
    requires LogFits(sb, g) && trail != [] && L.SameHome(g, d, trail[0].disk) && Chain(sb, trail) && Follows(es, trail)
    ensures Reached(es) < |trail| && L.SameHome(g, L.Durable(d, es), trail[Reached(es)].disk)
    decreases |es|
  {
    if es == [] {
    } else if Down(es) {
      DurableDown(d, es);
    } else {
      var e, rest := es[0], es[1..];
      assert Covered(sb, trail[0].disk, trail[1].disk, trail[1].logged);
      InstalledIs(sb, g, d, trail[0], trail[1], e);
      var d1 := L.DurableStep(d, e);
      if Uncut(e) {
        if e.lh == [] { EmptyCommit(g, d, e); }
        assert forall j :: 0 < j < |trail[1..]| ==> trail[1..][j] == trail[j+1] && trail[1..][j-1] == trail[j];
        DurableTrail(sb, g, d1, rest, trail[1..]);
      } else {
        DurableDown(d1, rest);
      }
    }
  }

  lemma EmptyCommit(g: L.Area, d: Disk, e: L.Event)
    requires e.Commit? && |e.lh| == |e.data| && e.lh == []
    ensures L.Installed(d, e.lh, e.data) == d
  {
    assert L.HomeWrites(e.lh, e.data) == [];
  }

  // ---- from disk to files ----

  /** What the kernel sees after a reboot: inodes as stored, nothing logged. */
  ghost function Mounted(sb: Super, disk: Disk, owner: Owners): Fs
    requires OnDisk(sb, disk)
  {
    Fs(disk, StoredInodes(sb, disk), owner, {})
  }

  /** A disk that agrees from the inodes on is the same file system. */
  lemma SameFiles(sb: Super, t: Fs, disk: Disk)
    requires Conserved(sb, t) && StoredAll(sb, t) && |disk| == |t.disk|
    requires forall b: nat :: sb.inodestart <= b < |disk| ==> disk[b] == t.disk[b]
    ensures OnDisk(sb, disk)
    ensures var m := Mounted(sb, disk, t.owner);
      m.ino == t.ino && Conserved(sb, m) && forall j: nat :: j < |t.ino| ==> Content(m, j) == Content(t, j)
  {
    hide Addr, Used, GetInode;
    var m := Mounted(sb, disk, t.owner);
    forall i: nat | i < sb.ninodes ensures m.ino[i] == t.ino[i] { assert Stored(sb, t.disk, i) == t.ino[i]; }
    assert m.ino == t.ino;
    OwnedData(sb, t);
    var u := Fs(disk, t.ino, t.owner, {});
    OwnFrame(sb, t, u);
    AddrFrame(sb, t, u);
    BitsFrame(sb, t.disk, disk, t.owner.Keys);
    forall j: nat | j < |t.ino| ensures Content(m, j) == Content(t, j) {
      forall p: nat ensures ByteAt(m, j, p) == ByteAt(t, j, p) { SameByte(sb, t, m, j, p); }
    }
  }

  lemma SameByte(sb: Super, t: Fs, m: Fs, j: nat, p: nat)
    requires Conserved(sb, t) && SameAddrs(t, m) && j < |t.ino| && |m.disk| == |t.disk|
    requires forall b: nat :: sb.inodestart <= b < |t.disk| ==> m.disk[b] == t.disk[b]
    ensures ByteAt(m, j, p) == ByteAt(t, j, p)
  {
    hide Addr, Bits;
    if p < MAXBYTES {
      var k, a := DataSlot(p / BSIZE), BlockOf(t, j, p);
      assert Addr(m.disk, m.ino[j], k) == Addr(t.disk, t.ino[j], k);
      if a != 0 { assert Held(t.owner, a, j, k) && OwnedRight(sb, t, a); }
    }
  }

  /**
    Crash safety of filewrite.  The file has no holes and the inodes on disk are
    current.  The commits of its transactions may stop after any block write, the
    recoveries may be cut any number of times: in the end recovery gives a disk whose
    bitmap and inodes agree, on which the file has the data up to the end of some chunk
    and every other file is as it was.
   */
  lemma CrashDuringWrite(sb: Super, g: L.Area, trail: seq<Fs>, bytes: seq<nat>, ip: nat, off: nat, src: seq<Byte>,
                         m: L.Machine, es: seq<L.Event>)
    requires LogFits(sb, g) && Trail(sb, trail, bytes, ip, off, src)
    requires ip < |trail[0].ino| && HoleFree(trail[0], ip) && StoredAll(sb, trail[0]) && off <= trail[0].ino[ip].size
    requires m.up && L.Sound(g, m) && L.SameHome(g, m.disk, trail[0].disk)
    requires L.Happens(g, m, es) && Follows(es, trail)
    ensures var c, last := Reached(es), L.Outcome(g, m, es).disk;
      && c < |trail| && L.GoodDisk(g, last) && OnDisk(sb, L.Recovered(g, last))
      && var after := Mounted(sb, L.Recovered(g, last), trail[c].owner);
      && Conserved(sb, after) && |after.ino| == |trail[0].ino|
      && Content(after, ip) == Overwritten(Content(trail[0], ip), off, src[..bytes[c]])
      && forall j: nat :: j < |trail[0].ino| && j != ip ==> Content(after, j) == Content(trail[0], j)
  {
    hide L.Happens, L.Outcome, L.Recovered, L.GoodDisk, Content, HoleFree, Conserved, Stored, Sofar;
    assert TrailAt(sb, trail[0], trail[0], ip, off, src, bytes[0]);
    assert Chain(sb, trail) by {
      forall j | 0 < j < |trail| ensures Covered(sb, trail[j-1].disk, trail[j].disk, trail[j].logged) {
        assert TrailStep(sb, trail[0], trail[j-1], trail[j], ip);
      }
    }
    DurableTrail(sb, g, m.disk, es, trail);
    assert L.Stands(g, m, m.disk);
    L.CrashAtomicity(g, m, es, m.disk);
    var c := Reached(es);
    assert TrailAt(sb, trail[0], trail[c], ip, off, src, bytes[c]);
    SameFiles(sb, trail[c], L.Recovered(g, L.Outcome(g, m, es).disk));
    SofarContent(sb, trail[0], trail[c], ip, off, src, bytes[c]);
  }

  lemma SofarContent(sb: Super, s: Fs, t: Fs, ip: nat, off: nat, src: seq<Byte>, i: nat)
    requires Sofar(sb, s, t, ip, off, off + i, src, i) && off <= s.ino[ip].size
    ensures ip < |s.ino| == |t.ino| && i <= |src| && Content(t, ip) == Overwritten(Content(s, ip), off, src[..i])
  {
  }
}
