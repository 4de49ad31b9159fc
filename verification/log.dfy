/**
  log.c over the buffer cache.  Every method reports, in `ok`, whether it ran to
  its end or stopped at one of the kernel's panics, and in `done` how many of its
  block writes had reached the disk by then.
 */
module KernelLog {
  import opened Blocks
  import opened LogRecovery
  import opened BufferRing
  import opened Seqs
  import B = BufferCache
  import A = LogAdmission

  function SlotWrites(g: Area, data: seq<Block>): (ws: seq<Write>)
    ensures |ws| == |data|
  {
    seq(|data|, i requires 0 <= i < |data| => var w: Write := (g.start + 1 + i, data[i]); w)
  }

  /** The current content of the logged blocks. */
  function Contents(d: Disk, lh: seq<nat>): (r: seq<Block>)
    requires forall i :: 0 <= i < |lh| ==> lh[i] < |d|
    ensures |r| == |lh|
  {
    seq(|lh|, i requires 0 <= i < |lh| => d[lh[i]])
  }

  lemma CommitWritesParts(g: Area, h: Block, lh: seq<nat>, data: seq<Block>)
    requires |lh| == |data| && Encodable(lh) && lh != []
    ensures CommitWrites(g, h, lh, data)
         == SlotWrites(g, data) + [(g.start, EncodeHead(h, lh))]
            + HomeWrites(lh, data) + [(g.start, EncodeHead(EncodeHead(h, lh), []))]
  {
    var ws := CommitWrites(g, h, lh, data);
    var rhs := SlotWrites(g, data) + [(g.start, EncodeHead(h, lh))]
            + HomeWrites(lh, data) + [(g.start, EncodeHead(EncodeHead(h, lh), []))];
    forall j | 0 <= j < |ws| ensures ws[j] == rhs[j] {
      assert ws[j] == CommitWrite(g, h, lh, data, j);
    }
  }

  lemma ApplyNone(d: Disk)
    ensures Apply(d, []) == d
  {
  }

  lemma ApplyPrefix(d: Disk, all: seq<Write>, t: nat)
    requires t < |all|
    ensures all[..t+1] == all[..t] + [all[t]]
    ensures Apply(d, all[..t+1]) == Put(Apply(d, all[..t]), all[t])
  {
    assert all[..t+1][..t] == all[..t];
  }

  lemma SlotWriteNext(g: Area, l: Disk, lh: seq<nat>, t: nat)
    requires Fits(g, |l|) && GoodTxn(g, |l|, lh) && t < |lh|
    ensures var all := SlotWrites(g, Contents(l, lh));
      && |all| == |lh| && all[t] == (g.start + 1 + t, l[lh[t]])
      && Apply(l, all[..t])[lh[t]] == l[lh[t]]
      && Elements(lh) - {g.start + 1 + t} == Elements(lh)
  {
    ApplyUntouched(l, SlotWrites(g, Contents(l, lh))[..t], lh[t]);
  }

  lemma HomeWriteNext(g: Area, l: Disk, lh: seq<nat>, t: nat)
    requires Fits(g, |l|) && GoodTxn(g, |l|, lh) && t < |lh|
    ensures var all := HomeWrites(lh, Slots(g, l, |lh|));
      && |all| == |lh| && all[t] == (lh[t], l[g.start + 1 + t])
      && Apply(l, all[..t])[g.start + 1 + t] == l[g.start + 1 + t]
  {
    hide Apply;
    var all := HomeWrites(lh, Slots(g, l, |lh|));
    HomeWritesMiss(g, |l|, lh, Slots(g, l, |lh|), t, g.start + 1 + t);
    ApplyUntouched(l, all[..t], g.start + 1 + t);
  }

  lemma HomeWritesMiss(g: Area, size: nat, lh: seq<nat>, data: seq<Block>, t: nat, b: nat)
    requires GoodTxn(g, size, lh) && |data| == |lh| && t <= |lh| && InLog(g, b)
    ensures forall i :: 0 <= i < t ==> HomeWrites(lh, data)[..t][i].0 != b
  {
  }

  /** What commit writes before it installs: the slots, then the header. */
  function LogPhaseWrites(g: Area, h: Block, lh: seq<nat>, data: seq<Block>): seq<Write>
    requires |lh| == |data| && Encodable(lh)
  {
    SlotWrites(g, data) + [(g.start, EncodeHead(h, lh))]
  }

  /** What commit and recover_from_log write from install_trans on: the home blocks, then the empty header. */
  function HomePhaseWrites(g: Area, h: Block, lh: seq<nat>, data: seq<Block>): seq<Write>
    requires |lh| == |data|
  {
    HomeWrites(lh, data) + [(g.start, EncodeHead(h, []))]
  }

  lemma PhaseCuts(d: Disk, body: seq<Write>, last: Write, k: nat)
    requires k <= |body|
    ensures var all := body + [last];
      && all[..k] == body[..k] && all[..|all|] == all && body[..|body|] == body
      && Apply(d, all) == Put(Apply(d, body), last)
  {
    assert (body + [last])[..|body|] == body;
  }

  lemma SlotWritesNone(g: Area)
    ensures SlotWrites(g, []) == []
  {
  }

  lemma SlotWritten(g: Area, l: Disk, data: seq<Block>, i: nat)
    requires i < |data| && g.start + |data| < |l|
    ensures Apply(l, SlotWrites(g, data))[g.start + 1 + i] == data[i]
    ensures Apply(l, SlotWrites(g, data))[g.start] == l[g.start]
  {
    var ws := SlotWrites(g, data);
    assert ws[i] == (g.start + 1 + i, data[i]);
    ApplyLast(l, ws, i);
    ApplyUntouched(l, ws, g.start);
  }

  lemma SlotsAre(g: Area, d: Disk, data: seq<Block>)
    requires Fits(g, |d|) && |data| < g.size && forall i :: 0 <= i < |data| ==> d[g.start + 1 + i] == data[i]
    ensures Slots(g, d, |data|) == data
  {
  }

  /** The slots of the log hold the transaction once write_log is through. */
  lemma SlotsWritten(g: Area, l: Disk, data: seq<Block>, h: Block)
    requires Fits(g, |l|) && |data| < g.size
    ensures var l1 := Apply(l, SlotWrites(g, data));
      l1[g.start] == l[g.start] && Slots(g, l1[g.start := h], |data|) == data
  {
    hide Apply, SlotWrites, Slots;
    var l1 := Apply(l, SlotWrites(g, data));
    if data == [] {
      SlotWritesNone(g);
      ApplyNone(l);
    } else {
      SlotWritten(g, l, data, 0);
    }
    forall i | 0 <= i < |data| ensures l1[g.start + 1 + i] == data[i] {
      SlotWritten(g, l, data, i);
    }
    SlotsAre(g, l1[g.start := h], data);
  }

  /** The simple disk between the two phases of commit. */
  lemma CommitStages(g: Area, l: Disk, lh: seq<nat>)
    requires Fits(g, |l|) && GoodTxn(g, |l|, lh) && Encodable(lh)
    ensures var data := Contents(l, lh);
      var l1 := Apply(l, SlotWrites(g, data));
      var l2 := Apply(l, LogPhaseWrites(g, l[g.start], lh, data));
      && l1[g.start] == l[g.start]
      && l2 == l1[g.start := EncodeHead(l[g.start], lh)]
      && Slots(g, l2, |lh|) == data
  {
    hide SlotWrites, EncodeHead, Apply, Contents, Slots, GoodTxn, Encodable;
    TxnInRange(g, |l|, lh);
    var h := EncodeHead(l[g.start], lh);
    PhaseCuts(l, SlotWrites(g, Contents(l, lh)), (g.start, h), 0);
    SlotsWritten(g, l, Contents(l, lh), h);
  }

  /** Cutting a commit inside one of its phases. */
  lemma CommitCuts(d: Disk, g: Area, h: Block, lh: seq<nat>, data: seq<Block>, j: nat, k: nat)
    requires |lh| == |data| && Encodable(lh) && lh != [] && j <= |lh| + 1 && k <= |lh| + 1
    ensures var ws := CommitWrites(g, h, lh, data); var n := |lh|;
      var a, c := LogPhaseWrites(g, h, lh, data), HomePhaseWrites(g, EncodeHead(h, lh), lh, data);
      && |a| == |c| == n + 1 && |ws| == 2 * n + 2 && ws[..2*n+2] == ws && a[..n+1] == a && c[..n+1] == c
      && ws[..j] == a[..j] && ws[..n+1+k] == a + c[..k]
      && Apply(d, ws[..n+1+k]) == Apply(Apply(d, a), c[..k])
  {
    hide CommitWrites, EncodeHead, Encodable, Apply;
    CommitWritesParts(g, h, lh, data);
    var ws := CommitWrites(g, h, lh, data);
    var n := |lh|;
    var a, c := LogPhaseWrites(g, h, lh, data), HomePhaseWrites(g, EncodeHead(h, lh), lh, data);
    assert ws == a + c;
    ApplyConcat(d, a, c[..k]);
    assert ws[..n+1+k] == a + c[..k];
  }

  /** Distinct logged blocks: each one is still pinned when its turn to be installed comes. */
  lemma StillPinned(g: Area, size: nat, lh: seq<nat>, t: nat)
    requires GoodTxn(g, size, lh) && t <= |lh|
    ensures |Elements(lh)| == |lh| && |Elements(lh) - Elements(lh[..t])| <= |lh|
    ensures t < |lh| ==> lh[t] in Elements(lh) - Elements(lh[..t])
  {
    ElementsCount(lh);
    CardinalityMono(Elements(lh) - Elements(lh[..t]), Elements(lh));
  }

  /** What is pinned while t of the blocks are installed. */
  lemma InstallPins(g: Area, size: nat, lh: seq<nat>, t: nat, p: set<nat>)
    requires GoodTxn(g, size, lh) && t < |lh|
    ensures p - Elements(lh[..t]) - {lh[t]} == p - Elements(lh[..t+1])
    ensures p == Elements(lh) ==> lh[t] in p - Elements(lh[..t]) && |p - Elements(lh[..t])| <= |lh|
    ensures p == {} ==> |p - Elements(lh[..t])| == 0
  {
    hide Elements, GoodTxn;
    StillPinned(g, size, lh, t);
    ElementsNext(lh, t);
  }

  lemma HeadNotLogged(g: Area, size: nat, lh: seq<nat>)
    requires GoodTxn(g, size, lh) && Fits(g, size)
    ensures g.start !in Elements(lh) && Elements(lh) - {g.start} == Elements(lh)
  {
  }

  lemma Logged(g: Area, size: nat, lh: seq<nat>, t: nat)
    requires GoodTxn(g, size, lh) && t < |lh|
    ensures lh[t] in Elements(lh) && g.start + 1 + t !in Elements(lh)
    ensures lh[t] < size && lh[t] != g.start + 1 + t && lh[t] in lh && InLog(g, g.start + 1 + t)
  {
  }

  lemma InstalledIsLatest(g: Area, d: Disk, l: Disk, lh: seq<nat>)
    requires GoodTxn(g, |d|, lh) && |d| == |l|
    requires forall b :: 0 <= b < |d| && d[b] != l[b] ==> b in Elements(lh)
    ensures SameHome(g, Installed(d, lh, Contents(l, lh)), l)
  {
    forall b | 0 <= b < |d| ensures Installed(d, lh, Contents(l, lh))[b] == l[b] {
      InstalledBlock(d, lh, Contents(l, lh), b);
    }
  }

  /** After a commit the home blocks on disk are the simple disk's. */
  lemma CommitDone(g: Area, d: Disk, l: Disk, lh: seq<nat>)
    requires CleanDisk(g, d) && GoodTxn(g, |d|, lh) && |d| == |l|
    requires forall b :: 0 <= b < |d| && d[b] != l[b] ==> b in Elements(lh)
    ensures l[g.start] == d[g.start]
    ensures var ws := CommitWrites(g, d[g.start], lh, Contents(l, lh));
      && ws[..|ws|] == ws && CleanDisk(g, Apply(d, ws)) && SameHome(g, Apply(d, ws), l)
      && SameHome(g, Apply(l, ws), l)
    ensures Elements([]) == {}
  {
    assert g.start !in Elements(lh);
    CommitComplete(g, d, lh, Contents(l, lh));
    CommitComplete(g, l, lh, Contents(l, lh));
    InstalledIsLatest(g, d, l, lh);
    InstalledIsLatest(g, l, l, lh);
  }

  lemma TxnInRange(g: Area, size: nat, lh: seq<nat>)
    requires Fits(g, size) && GoodTxn(g, size, lh)
    ensures |lh| < g.size && Encodable(lh) && forall i :: 0 <= i < |lh| ==> lh[i] < size
    ensures GoodTxn(g, size, [])
  {
  }

  lemma CommitNothing(g: Area, d: Disk, l: Disk, lh: seq<nat>)
    requires CleanDisk(g, d) && |d| == |l| && lh == []
    ensures CommitWrites(g, d[g.start], lh, Contents(l, lh)) == []
    ensures Apply(d, []) == d && Apply(l, []) == l
  {
  }

  lemma RecoverWritesParts(d: Disk, g: Area)
    requires GoodDisk(g, d)
    ensures var lh := DecodeHead(d[g.start]);
      RecoverWrites(g, d) == HomePhaseWrites(g, d[g.start], lh, Slots(g, d, |lh|))
    ensures RecoverWrites(g, d)[..|RecoverWrites(g, d)|] == RecoverWrites(g, d)
  {
  }

  /** log_write adds the block number unless it is there already. */
  function Absorb(lh: seq<nat>, b: nat): seq<nat> {
    if b in lh then lh else lh + [b]
  }

  lemma AbsorbAdds(lh: seq<nat>, b: nat)
    ensures Elements(Absorb(lh, b)) == Elements(lh) + {b}
  {
    var r := Absorb(lh, b);
    if b !in lh {
      assert r[|lh|] == b;
      assert forall i :: 0 <= i < |lh| ==> r[i] == lh[i];
    }
  }

  /** Whatever is locked is neither a block of the log nor one of lh. */
  ghost predicate LogFree(g: Area, buf: seq<B.Buf>, lh: seq<nat>) {
    forall j :: 0 <= j < |buf| && buf[j].locked && buf[j].dev == B.ROOTDEV ==>
      !InLog(g, buf[j].blockno) && buf[j].blockno !in lh
  }

  /** Whoever holds a buffer still holds it, unchanged, and nobody else does. */
  ghost predicate HeldKept(s: seq<B.Buf>, t: seq<B.Buf>) {
    |s| == |t| && forall j :: 0 <= j < |s| ==> s[j].locked == t[j].locked && (s[j].locked ==> t[j] == s[j])
  }

  lemma KeptSame(s: seq<B.Buf>)
    ensures HeldKept(s, s)
  {
  }

  lemma FreeStays(g: Area, s: seq<B.Buf>, t: seq<B.Buf>, lh: seq<nat>)
    requires HeldKept(s, t) && LogFree(g, s, lh)
    ensures LogFree(g, t, lh) && LogFree(g, t, [])
  {
  }

  lemma KeptTrans(s: seq<B.Buf>, t: seq<B.Buf>, u: seq<B.Buf>)
    requires HeldKept(s, t) && HeldKept(t, u)
    ensures HeldKept(s, u)
  {
  }

  lemma FreeOf(g: Area, buf: seq<B.Buf>, lh: seq<nat>, b: nat)
    requires LogFree(g, buf, lh) && (InLog(g, b) || b in lh)
    ensures Unheld(buf, B.ROOTDEV, b)
  {
  }

  /** A copy between two blocks needs one buffer beside the pinned blocks, or two. */
  ghost predicate RoomFor(pinned: set<nat>, a: nat, b: nat) {
    |pinned| + (if a in pinned || b in pinned then 1 else 2) <= B.NBUF
  }

  class Log {
    const bc: Cache
    const g: Area                 // log.start, log.size
    var n: nat                    // log.lh.n
    var block: seq<nat>           // log.lh.block
    var outstanding: nat
    var committing: bool

    constructor (bc: Cache, g: Area)
      ensures this.bc == bc && this.g == g && n == 0 && |block| == LOGSIZE && outstanding == 0 && !committing
    {
      this.bc, this.g := bc, g;
      n, block, outstanding, committing := 0, seq(LOGSIZE, i => 0), 0, false;
    }

    ghost function Lh(): seq<nat>
      requires n <= |block|
      reads this
    {
      block[..n]
    }

    /** The log as the admission protocol sees it, and its sizes. */
    ghost function Admission(): A.State
      requires n <= |block|
      reads this
    {
      A.State([], Elements(Lh()), outstanding, committing)
    }

    ghost function Bounds(): A.Params {
      A.Params(MAXOPBLOCKS, LOGSIZE, g.size)
    }

    /** What log_write leaves: distinct home blocks, at most LOGSIZE. */
    ghost predicate Loose()
      reads this, bc
    {
      && bc.Valid() && Fits(g, |bc.disk|)
      && n <= LOGSIZE == |block| && Loggable(g, |bc.disk|, Lh())
    }

    /** And a slot for each of them. */
    ghost predicate Shape()
      reads this, bc
    {
      Loose() && n < g.size
    }

    /** Nobody has a block of the log or one of lh locked; readers may hold others. */
    ghost predicate Idle(lh: seq<nat>)
      reads bc
    {
      LogFree(g, bc.buf, lh)
    }

    /** Between operations: the pinned buffers are the logged ones and the header on disk is empty. */
    ghost predicate Valid()
      reads this, bc
    {
      Shape() && bc.pinned == Elements(Lh()) && CleanDisk(g, bc.disk)
    }

    /** The two breads of a copy; quiet, they fit beside the pinned blocks unless those take too many buffers. */
    method ReadBoth(first: nat, second: nat) returns (a: int, b: int)
      requires bc.Valid() && first != second && first < |bc.disk| && second < |bc.disk|
      requires Unheld(bc.buf, B.ROOTDEV, first) && Unheld(bc.buf, B.ROOTDEV, second)
      modifies bc
      ensures bc.Valid() && bc.disk == old(bc.disk) && bc.latest == old(bc.latest) && bc.modified == old(bc.modified)
      ensures bc.writes == old(bc.writes) && bc.pinned == old(bc.pinned)
      ensures -1 <= a < B.NBUF && -1 <= b < B.NBUF && (a == -1 ==> b == -1)
      ensures b != -1 ==>
        && a != b && bc.buf[a].locked && bc.buf[a].valid && bc.buf[b].locked && bc.buf[b].valid
        && !old(bc.buf)[a].locked && !old(bc.buf)[b].locked && a !in bc.modified && b !in bc.modified
        && bc.buf[a].blockno == first && bc.buf[b].blockno == second
        && bc.buf[a].data == bc.latest[first] && bc.buf[b].data == bc.latest[second]
        && bc.buf[a].refcnt == old(bc.buf)[a].refcnt + 1 && bc.buf[b].refcnt == old(bc.buf)[b].refcnt + 1
        && (forall j :: 0 <= j < B.NBUF && j != a && j != b ==> bc.buf[j] == old(bc.buf)[j])
      ensures old(bc.Quiet()) && RoomFor(bc.pinned, first, second) ==> b != -1
      ensures old(bc.Quiet()) && |bc.pinned| == B.NBUF && first !in bc.pinned ==> b == -1
    {
      hide B.Inv, B.Step, B.Enabled, B.DirtyIs, Ring, NoBuffer;
      if bc.Quiet() { bc.FirstRead(first); }
      var got;
      a, got := bc.Bread(B.ROOTDEV, first);
      if !got { return -1, -1; }
      if old(bc.Quiet()) && RoomFor(bc.pinned, first, second) {
        bc.SecondRead(a, second);
      }
      b, got := bc.Bread(B.ROOTDEV, second);
    }

    /** Copies block src over block dst on disk, both through the cache. */
    method CopyBlock(dst: nat, src: nat, dstFirst: bool) returns (ok: bool)
      requires bc.Valid() && dst != src && dst < |bc.disk| && src < |bc.disk|
      requires Unheld(bc.buf, B.ROOTDEV, dst) && Unheld(bc.buf, B.ROOTDEV, src)
      modifies bc
      ensures bc.Valid() && |bc.disk| == |old(bc.disk)|
      ensures !ok ==> bc.disk == old(bc.disk) && bc.writes == old(bc.writes)
      ensures ok ==>
        && HeldKept(old(bc.buf), bc.buf) && bc.pinned == old(bc.pinned) - {dst}
        && bc.disk == old(bc.disk)[dst := old(bc.latest)[src]]
        && bc.latest == old(bc.latest)[dst := old(bc.latest)[src]]
        && bc.writes == old(bc.writes) + [(dst, old(bc.latest)[src])]
      ensures ok && old(bc.Quiet()) ==> bc.Quiet()
      ensures old(bc.Quiet()) && RoomFor(old(bc.pinned), dst, src) ==> ok
      ensures old(bc.Quiet()) && |old(bc.pinned)| == B.NBUF && dstFirst && dst !in old(bc.pinned) ==> !ok
    {
      hide B.Inv, B.Step, B.Enabled, B.DirtyIs, Ring;
      var to, from;
      if dstFirst {
        to, from := ReadBoth(dst, src);
        if from == -1 { return false; }
      } else {
        from, to := ReadBoth(src, dst);
        if to == -1 { return false; }
      }
      bc.Store(to, bc.buf[from].data);
      bc.Bwrite(to);
      bc.Brelse(from);
      bc.Brelse(to);
      return true;
    }

    /** The stores of write_head into the header block. */
    method FillHead(h: Block) returns (hb: Block)
      requires n <= |block| && Encodable(Lh())
      ensures hb == EncodeHead(h, Lh())
    {
      hb := PutWord(h, 0, n);
      ghost var h0 := hb;
      var i := 0;
      while i < n
        invariant 0 <= i <= n
        invariant hb == PutBlocks(h0, block[..i])
      {
        assert Lh()[i] == block[i];
        hb := PutWord(hb, 1 + i, block[i]);
        i := i + 1;
        assert block[..i][..i-1] == block[..i-1];
      }
    }

    method WriteHead() returns (ok: bool)
      requires Shape() && Idle([])
      modifies bc
      ensures bc.Valid() && |bc.disk| == |old(bc.disk)|
      ensures !ok ==> bc.disk == old(bc.disk) && bc.writes == old(bc.writes)
      ensures ok ==>
        var h := EncodeHead(old(bc.latest)[g.start], Lh());
        && HeldKept(old(bc.buf), bc.buf) && bc.pinned == old(bc.pinned) - {g.start}
        && bc.disk == old(bc.disk)[g.start := h] && bc.latest == old(bc.latest)[g.start := h]
        && bc.writes == old(bc.writes) + [(g.start, h)]
      ensures old(bc.Quiet()) ==>
        (ok <==> |old(bc.pinned)| < B.NBUF || g.start in old(bc.pinned)) && (ok ==> bc.Quiet())
    {
      hide B.Inv, B.Step, B.Enabled, B.DirtyIs, Ring, EncodeHead, NoBuffer;
      if bc.Quiet() { bc.FirstRead(g.start); }
      FreeOf(g, bc.buf, [], g.start);
      var b, got := bc.Bread(B.ROOTDEV, g.start);
      if !got { return false; }
      var hb := FillHead(bc.buf[b].data);
      bc.Store(b, hb);
      bc.Bwrite(b);
      bc.Brelse(b);
      return true;
    }

    /** Reads the header of a well-formed log; write_head is what undoes it. */
    method ReadHead() returns (ok: bool)
      requires bc.Valid() && Idle([]) && GoodDisk(g, bc.disk) && bc.latest == bc.disk && |block| == LOGSIZE
      modifies this, bc
      ensures bc.Valid() && bc.disk == old(bc.disk) && bc.latest == old(bc.latest)
      ensures bc.writes == old(bc.writes) && bc.pinned == old(bc.pinned)
      ensures outstanding == old(outstanding) && committing == old(committing)
      ensures ok ==> HeldKept(old(bc.buf), bc.buf) && Shape() && Lh() == DecodeHead(bc.disk[g.start])
      ensures old(bc.Quiet()) ==>
        (ok <==> |old(bc.pinned)| < B.NBUF || g.start in old(bc.pinned)) && (ok ==> bc.Quiet())
    {
      hide B.Inv, B.Step, B.Enabled, B.DirtyIs, Ring, NoBuffer;
      if bc.Quiet() { bc.FirstRead(g.start); }
      FreeOf(g, bc.buf, [], g.start);
      var b, got := bc.Bread(B.ROOTDEV, g.start);
      if !got { return false; }
      var hb := bc.buf[b].data;
      n := GetWord(hb, 0);
      var i := 0;
      while i < n
        invariant 0 <= i <= n <= LOGSIZE == |block| && n == GetWord(hb, 0)
        invariant forall j :: 0 <= j < i ==> block[j] == GetWord(hb, 1 + j)
        modifies this`block
      {
        block := block[i := GetWord(hb, 1 + i)];
        i := i + 1;
      }
      bc.Brelse(b);
      assert Lh() == DecodeHead(bc.disk[g.start]);
      return true;
    }

    /** Copies the logged blocks from the cache to the slots of the log. */
    method WriteLog() returns (ok: bool, ghost done: nat)
      requires Shape() && Idle(Lh()) && bc.pinned == Elements(Lh())
      modifies bc
      ensures bc.Valid() && done <= n && (ok ==> done == n)
      ensures bc.writes == old(bc.writes) + SlotWrites(g, Contents(old(bc.latest), Lh()))[..done]
      ensures bc.disk == Apply(old(bc.disk), SlotWrites(g, Contents(old(bc.latest), Lh()))[..done])
      ensures ok ==>
        && HeldKept(old(bc.buf), bc.buf) && bc.pinned == old(bc.pinned)
        && bc.latest == Apply(old(bc.latest), SlotWrites(g, Contents(old(bc.latest), Lh())))
      ensures old(bc.Quiet()) && n > 0 ==> (ok <==> n < B.NBUF) && (ok ==> bc.Quiet())
    {
      hide B.Inv, B.DirtyIs, Ring, NoBuffer, SlotWrites, Contents, Elements, Apply, LogFree, HeldKept, Unheld, Loggable;
      KeptSame(bc.buf);
      TxnInRange(g, |bc.disk|, Lh());
      StillPinned(g, |bc.disk|, Lh(), 0);
      if bc.Quiet() { bc.FirstRead(g.start); }
      ghost var l0 := bc.latest;
      ghost var all := SlotWrites(g, Contents(l0, Lh()));
      done := 0;
      assert all[..0] == [];
      ApplyNone(bc.disk);
      ApplyNone(l0);
      var tail := 0;
      while tail < n
        invariant 0 <= tail == done <= n
        invariant Shape() && Idle(Lh()) && bc.pinned == Elements(Lh()) && HeldKept(old(bc.buf), bc.buf)
        invariant old(bc.Quiet()) ==> bc.Quiet() && (tail > 0 ==> n < B.NBUF)
        invariant |bc.disk| == |l0|
        invariant bc.writes == old(bc.writes) + all[..tail]
        invariant bc.disk == Apply(old(bc.disk), all[..tail]) && bc.latest == Apply(l0, all[..tail])
      {
        SlotWriteNext(g, l0, Lh(), tail);
        ApplyPrefix(old(bc.disk), all, tail);
        ApplyPrefix(l0, all, tail);
        assert Lh()[tail] == block[tail];
        Logged(g, |l0|, Lh(), tail);
        FreeOf(g, bc.buf, Lh(), g.start + 1 + tail);
        FreeOf(g, bc.buf, Lh(), block[tail]);
        ghost var t := bc.buf;
        ok := CopyBlock(g.start + 1 + tail, block[tail], true);
        if !ok { return; }
        FreeStays(g, t, bc.buf, Lh());
        KeptTrans(old(bc.buf), t, bc.buf);
        tail, done := tail + 1, done + 1;
      }
      assert all[..n] == all;
      ok := true;
    }

    /** Installing fits in the cache: in a commit with a buffer to spare, or at boot with two. */
    ghost predicate RoomToInstall(pinned: set<nat>)
      requires n <= |block|
      reads this
    {
      (pinned == Elements(Lh()) && n < B.NBUF) || (pinned == {} && 2 <= B.NBUF)
    }

    /** Copies committed blocks from the log to their home location. */
    method InstallTrans() returns (ok: bool, ghost done: nat)
      requires Shape() && Idle(Lh())
      modifies bc
      ensures bc.Valid() && done <= n && (ok ==> done == n)
      ensures bc.writes == old(bc.writes) + HomeWrites(Lh(), Slots(g, old(bc.latest), n))[..done]
      ensures bc.disk == Apply(old(bc.disk), HomeWrites(Lh(), Slots(g, old(bc.latest), n))[..done])
      ensures ok ==>
        && HeldKept(old(bc.buf), bc.buf) && bc.pinned == old(bc.pinned) - Elements(Lh())
        && bc.latest == Apply(old(bc.latest), HomeWrites(Lh(), Slots(g, old(bc.latest), n)))
      ensures old(bc.Quiet()) && RoomToInstall(old(bc.pinned)) ==> ok && bc.Quiet()
    {
      hide B.Inv, B.DirtyIs, Ring, HomeWrites, Slots, Apply, Elements, LogFree, HeldKept, Unheld, Loggable, InLog;
      KeptSame(bc.buf);
      ElementsNone();
      assert Lh()[..0] == [] && Lh()[..n] == Lh();
      ghost var l0 := bc.latest;
      ghost var all := HomeWrites(Lh(), Slots(g, l0, n));
      done := 0;
      assert all[..0] == [];
      ApplyNone(bc.disk);
      ApplyNone(l0);
      var tail := 0;
      while tail < n
        invariant 0 <= tail == done <= n
        invariant Shape() && Idle(Lh()) && bc.pinned == old(bc.pinned) - Elements(Lh()[..tail])
        invariant HeldKept(old(bc.buf), bc.buf)
        invariant old(bc.Quiet()) && RoomToInstall(old(bc.pinned)) ==> bc.Quiet()
        invariant |bc.disk| == |l0|
        invariant bc.writes == old(bc.writes) + all[..tail]
        invariant bc.disk == Apply(old(bc.disk), all[..tail]) && bc.latest == Apply(l0, all[..tail])
      {
        HomeWriteNext(g, l0, Lh(), tail);
        ApplyPrefix(old(bc.disk), all, tail);
        ApplyPrefix(l0, all, tail);
        assert Lh()[tail] == block[tail];
        InstallPins(g, |l0|, Lh(), tail, old(bc.pinned));
        Logged(g, |l0|, Lh(), tail);
        FreeOf(g, bc.buf, Lh(), g.start + 1 + tail);
        FreeOf(g, bc.buf, Lh(), block[tail]);
        ghost var t := bc.buf;
        ok := CopyBlock(block[tail], g.start + 1 + tail, false);
        if !ok { return; }
        FreeStays(g, t, bc.buf, Lh());
        KeptTrans(old(bc.buf), t, bc.buf);
        tail, done := tail + 1, done + 1;
      }
      assert all[..n] == all;
      ok := true;
    }

    /** write_log(); write_head(); */
    method LogPhase() returns (ok: bool, ghost done: nat)
      requires Shape() && Idle(Lh()) && bc.pinned == Elements(Lh()) && n > 0
      modifies bc
      ensures bc.Valid() && done <= n + 1 && (ok ==> done == n + 1)
      ensures var ws := LogPhaseWrites(g, old(bc.latest)[g.start], Lh(), Contents(old(bc.latest), Lh()));
        && |ws| == n + 1 && bc.writes == old(bc.writes) + ws[..done] && bc.disk == Apply(old(bc.disk), ws[..done])
        && (ok ==>
          HeldKept(old(bc.buf), bc.buf) && bc.pinned == old(bc.pinned) && bc.latest == Apply(old(bc.latest), ws))
      ensures old(bc.Quiet()) ==> (ok <==> n < B.NBUF) && (ok ==> bc.Quiet())
    {
      hide B.Inv, B.DirtyIs, Ring, EncodeHead, SlotWrites, Contents, Apply, Elements, LogFree, HeldKept;
      ghost var d, l, lh := bc.disk, bc.latest, Lh();
      TxnInRange(g, |d|, lh);
      CommitStages(g, l, lh);
      StillPinned(g, |d|, lh, 0);
      ghost var slots, last := SlotWrites(g, Contents(l, lh)), (g.start, EncodeHead(l[g.start], lh));
      ok, done := WriteLog();
      PhaseCuts(d, slots, last, done);
      if !ok { return; }
      HeadNotLogged(g, |d|, lh);
      FreeStays(g, old(bc.buf), bc.buf, lh);
      ghost var t := bc.buf;
      ok := WriteHead();
      if !ok { return; }
      KeptTrans(old(bc.buf), t, bc.buf);
      done := done + 1;
    }

    /** install_trans(); log.lh.n = 0; write_head(); */
    method HomePhase() returns (ok: bool, ghost done: nat)
      requires Shape() && Idle(Lh())
      modifies this, bc
      ensures outstanding == old(outstanding) && committing == old(committing) && block == old(block) && bc.Valid()
      ensures var ws := HomePhaseWrites(g, old(bc.latest)[g.start], old(Lh()), Slots(g, old(bc.latest), old(n)));
        && |ws| == old(n) + 1 && done <= |ws| && (ok ==> done == |ws|)
        && bc.writes == old(bc.writes) + ws[..done] && bc.disk == Apply(old(bc.disk), ws[..done])
        && (ok ==> bc.latest == Apply(old(bc.latest), ws))
      ensures ok ==>
        && Shape() && HeldKept(old(bc.buf), bc.buf) && n == 0
        && bc.pinned == old(bc.pinned) - Elements(old(Lh())) - {g.start}
      ensures old(bc.Quiet()) && old(RoomToInstall(bc.pinned)) ==> ok && bc.Quiet()
    {
      hide B.Inv, B.DirtyIs, Ring, EncodeHead, HomeWrites, Apply, Slots, Elements, LogFree, HeldKept;
      ghost var d, l, lh := bc.disk, bc.latest, Lh();
      TxnInRange(g, |d|, lh);
      ghost var homes, last := HomeWrites(lh, Slots(g, l, n)), (g.start, EncodeHead(l[g.start], []));
      HomeWritesMiss(g, |d|, lh, Slots(g, l, n), n, g.start);
      ok, done := InstallTrans();
      PhaseCuts(d, homes, last, done);
      if !ok { return; }
      ApplyUntouched(l, homes, g.start);
      PhaseCuts(l, homes, last, 0);
      n := 0;
      assert Lh() == [];
      FreeStays(g, old(bc.buf), bc.buf, lh);
      ghost var t := bc.buf;
      ok := WriteHead();
      if !ok { return; }
      KeptTrans(old(bc.buf), t, bc.buf);
      done := done + 1;
    }

    /**
      commit(): the block writes are exactly CommitWrites, in that order, or a
      prefix of it if the kernel stops.  At the end the home blocks on disk are
      those of the simple disk and nothing is pinned.  While no process refers to
      a buffer the kernel stops exactly if the transaction takes all of them.
     */
    method Commit() returns (ok: bool, ghost done: nat)
      requires Valid() && Idle(Lh())
      modifies this, bc
      ensures outstanding == old(outstanding) && committing == old(committing) && bc.Valid()
      ensures var ws := CommitWrites(g, old(bc.disk)[g.start], old(Lh()), Contents(old(bc.latest), old(Lh())));
        && done <= |ws| && (ok ==> done == |ws|)
        && bc.writes == old(bc.writes) + ws[..done] && bc.disk == Apply(old(bc.disk), ws[..done])
      ensures ok ==> Valid() && HeldKept(old(bc.buf), bc.buf) && n == 0
      ensures ok ==> SameHome(g, bc.disk, old(bc.latest)) && SameHome(g, bc.latest, old(bc.latest))
      ensures old(bc.Quiet()) ==> (ok <==> old(n) < B.NBUF) && (ok ==> bc.Quiet())
    {
      hide B.Inv, B.DirtyIs, Ring, EncodeHead, CommitWrites, SlotWrites, HomeWrites, Contents, Apply, Slots, Elements,
        SameHome, Loggable;
      ghost var d, l, lh := bc.disk, bc.latest, Lh();
      TxnInRange(g, |d|, lh);
      bc.HomeUnlessPinned();
      CommitDone(g, d, l, lh);
      done := 0;
      if n > 0 {
        ok, done := CommitBlocks();
        assert ok ==> Lh() == [];
        return;
      }
      CommitNothing(g, d, l, lh);
      ok := true;
    }

    /** commit() of at least one block. */
    method CommitBlocks() returns (ok: bool, ghost done: nat)
      requires Valid() && Idle(Lh()) && n > 0 && bc.latest[g.start] == bc.disk[g.start]
      modifies this, bc
      ensures outstanding == old(outstanding) && committing == old(committing) && bc.Valid()
      ensures var ws := CommitWrites(g, old(bc.disk)[g.start], old(Lh()), Contents(old(bc.latest), old(Lh())));
        && done <= |ws| && (ok ==> done == |ws|)
        && bc.writes == old(bc.writes) + ws[..done] && bc.disk == Apply(old(bc.disk), ws[..done])
        && (ok ==> Shape() && HeldKept(old(bc.buf), bc.buf) && n == 0 && bc.pinned == {}
                   && bc.latest == Apply(old(bc.latest), ws))
      ensures old(bc.Quiet()) ==> (ok <==> old(n) < B.NBUF) && (ok ==> bc.Quiet())
    {
      hide B.Inv, B.DirtyIs, Ring, EncodeHead, CommitWrites, LogPhaseWrites, HomePhaseWrites, Contents, Apply, Slots,
        Loggable, LogFree, HeldKept;
      ghost var d, l, lh := bc.disk, bc.latest, Lh();
      TxnInRange(g, |d|, lh);
      ghost var h, data := d[g.start], Contents(l, lh);
      CommitStages(g, l, lh);
      ok, done := LogPhase();
      CommitCuts(d, g, h, lh, data, done, 0);
      if !ok { return; }
      FreeStays(g, old(bc.buf), bc.buf, lh);
      ghost var t, k := bc.buf, 0;
      ok, k := HomePhase();
      if ok { KeptTrans(old(bc.buf), t, bc.buf); }
      CommitCuts(d, g, h, lh, data, done, k);
      CommitCuts(l, g, h, lh, data, done, k);
      done := done + k;
    }

    /** Boot: install a committed transaction, if the header names one, and erase the header. */
    method RecoverFromLog() returns (ok: bool, ghost done: nat)
      requires bc.Valid() && bc.pinned == {} && bc.latest == bc.disk
      requires GoodDisk(g, bc.disk) && Idle(DecodeHead(bc.disk[g.start])) && |block| == LOGSIZE
      modifies this, bc
      ensures outstanding == old(outstanding) && committing == old(committing) && bc.Valid()
      ensures var ws := RecoverWrites(g, old(bc.disk));
        && done <= |ws| && (ok ==> done == |ws|)
        && bc.writes == old(bc.writes) + ws[..done] && bc.disk == Apply(old(bc.disk), ws[..done])
      ensures ok ==> Valid() && HeldKept(old(bc.buf), bc.buf) && n == 0
      ensures ok ==> bc.disk == bc.latest == Recovered(g, old(bc.disk))
      ensures old(bc.Quiet()) && 2 <= B.NBUF ==> ok && bc.Quiet()
    {
      hide B.Inv, B.DirtyIs, Ring, EncodeHead, RecoverWrites, HomePhaseWrites, Apply, Slots;
      ghost var d := bc.disk;
      done := 0;
      RecoverWritesParts(d, g);
      ApplyNone(d);
      ok := ReadHead();
      if !ok { return; }
      assert Lh() == DecodeHead(d[g.start]);
      FreeStays(g, old(bc.buf), bc.buf, Lh());
      ghost var t := bc.buf;
      ok, done := HomePhase();
      if !ok { return; }
      KeptTrans(old(bc.buf), t, bc.buf);
      RecoveredHeader(g, d);
    }

    /** The two tests of log_write, made before it takes log.lock; false is a panic. */
    method Guard() returns (ok: bool)
      ensures ok <==> n < LOGSIZE && n < g.size - 1 && outstanding >= 1
      ensures Loose() ==> (ok <==> !A.WritePanics(Bounds(), Admission()))
    {
      if Loose() { ElementsCount(Lh()); }
      if n >= LOGSIZE || n >= g.size - 1 { return false; }
      if outstanding < 1 { return false; }
      return true;
    }

    /**
      The rest of log_write, under log.lock: other appends may have come since the
      guard.  That the block finds a place in lh.block is the work of the reservation.
     */
    method Append(i: nat)
      requires Loose() && bc.pinned == Elements(Lh())
      requires i < |bc.buf| && bc.buf[i].locked && bc.buf[i].valid && !InLog(g, bc.buf[i].blockno)
      requires n < LOGSIZE || bc.buf[i].blockno in Lh()
      modifies this, bc
      ensures outstanding == old(outstanding) && committing == old(committing)
      ensures Loose() && bc.pinned == Elements(Lh()) && bc.disk == old(bc.disk) && bc.writes == old(bc.writes)
      ensures Lh() == Absorb(old(Lh()), old(bc.buf[i].blockno))
      ensures Admission() == old(Admission()).(logged := old(Admission()).logged + {old(bc.buf[i].blockno)})
      ensures bc.buf == old(bc.buf)[i := old(bc.buf)[i].(dirty := true)]
      ensures old(bc.buf[i].blockno) < |bc.disk|
              && bc.latest == old(bc.latest)[old(bc.buf[i].blockno) := old(bc.buf[i].data)]
    {
      var b := bc.buf[i].blockno;
      var k := 0;
      while k < n
        invariant 0 <= k <= n
        invariant forall j :: 0 <= j < k ==> block[j] != b
      {
        if block[k] == b { break; }
        k := k + 1;
      }
      ghost var lh := Lh();
      assert k == n ==> b !in lh;
      block := block[k := b];
      if k == n {
        n := n + 1;
      }
      assert Lh() == Absorb(lh, b);
      AbsorbAdds(lh, b);
      bc.Pin(i);
    }

    /** log_write when no other append comes between its guard and its own. */
    method LogWrite(i: nat) returns (ok: bool)
      requires Shape() && bc.pinned == Elements(Lh())
      requires i < |bc.buf| && bc.buf[i].locked && bc.buf[i].valid && !InLog(g, bc.buf[i].blockno)
      modifies this, bc
      ensures outstanding == old(outstanding) && committing == old(committing)
      ensures ok <==> old(n) < LOGSIZE && old(n) < g.size - 1 && outstanding >= 1
      ensures !ok ==> n == old(n) && block == old(block) && bc.View() == old(bc.View()) && bc.pinned == old(bc.pinned)
      ensures ok ==> Shape() && bc.pinned == Elements(Lh()) && bc.disk == old(bc.disk) && bc.writes == old(bc.writes)
      ensures ok ==> Lh() == Absorb(old(Lh()), old(bc.buf[i].blockno))
      ensures ok ==> bc.buf == old(bc.buf)[i := old(bc.buf)[i].(dirty := true)]
      ensures ok ==> old(bc.buf[i].blockno) < |bc.disk|
                     && bc.latest == old(bc.latest)[old(bc.buf[i].blockno) := old(bc.buf[i].data)]
    {
      ok := Guard();
      if ok { Append(i); }
    }

    /** One pass of begin_op's loop under log.lock: false means the caller sleeps on &log. */
    method BeginOp() returns (admitted: bool)
      modifies this
      ensures n == old(n) && block == old(block) && committing == old(committing)
      ensures admitted <==> !committing && n + (old(outstanding) + 1) * MAXOPBLOCKS <= LOGSIZE
      ensures outstanding == old(outstanding) + if admitted then 1 else 0
      ensures old(Loose()) ==> (admitted <==> !committing && A.Room(Bounds(), old(Admission())))
    {
      if Loose() { ElementsCount(Lh()); }
      if committing {
        return false;
      } else if n + (outstanding + 1) * MAXOPBLOCKS > LOGSIZE {
        return false;
      } else {
        outstanding := outstanding + 1;
        return true;
      }
    }

    /**
      end_op.  The last operation out commits; a panic inside commit, or the
      "log.committing" panic, is ok == false.
     */
    method EndOp() returns (ok: bool, ghost done: nat)
      requires Valid() && outstanding >= 1 && (outstanding == 1 ==> Idle(Lh()))
      modifies this, bc
      ensures outstanding == old(outstanding) - 1
      ensures old(committing) ==> !ok && done == 0 && bc.View() == old(bc.View()) && n == old(n) && block == old(block)
      ensures ok && outstanding > 0 ==> bc.View() == old(bc.View()) && n == old(n) && block == old(block) && done == 0
      ensures ok ==> Valid() && !committing
      ensures ok && outstanding == 0 ==>
        && HeldKept(old(bc.buf), bc.buf) && n == 0 && SameHome(g, bc.disk, old(bc.latest))
          && SameHome(g, bc.latest, old(bc.latest))
      ensures !old(committing) && outstanding == 0 ==>
        var ws := CommitWrites(g, old(bc.disk)[g.start], old(Lh()), Contents(old(bc.latest), old(Lh())));
        && done <= |ws| && bc.disk == Apply(old(bc.disk), ws[..done])
      ensures !old(committing) && outstanding > 0 ==> ok
      ensures !old(committing) && outstanding == 0 && old(bc.Quiet()) ==> (ok <==> old(n) < B.NBUF)
    {
      hide B.Inv, B.DirtyIs, Ring, CommitWrites, Contents, SameHome, Apply, Loggable;
      done := 0;
      outstanding := outstanding - 1;
      if committing { return false, 0; }
      if outstanding == 0 {
        committing := true;
        ok, done := Commit();
        if !ok { return; }
        committing := false;
      }
      ok := true;
    }
  }
}
