/**
  The on-disk redo log of log.c: what commit and recovery write, block by block,
  and what a crash between any two of those writes leaves behind.
 */
module LogRecovery {
  import opened Blocks

  /** initlog panics unless the header, LOGSIZE + 1 words, is smaller than a block. */
  type LogSize = x: nat | 0 < x && x + 1 < WORDS witness 30
  const LOGSIZE: LogSize
  const MAXOPBLOCKS: nat

  /** log.start and log.size: one header block, then size - 1 slots. */
  datatype Area = Area(start: nat, size: nat)

  type Write = (nat, Block)

  predicate InLog(g: Area, b: nat) {
    g.start <= b < g.start + g.size
  }

  predicate Fits(g: Area, size: nat) {
    1 <= g.size && g.start + g.size <= size <= 0x1_0000_0000
  }

  // ---- the header block ----

  function PutBlocks(h: Block, lh: seq<nat>): (r: Block)
    requires Encodable(lh)
    ensures GetWord(r, 0) == GetWord(h, 0)
    ensures forall i :: 0 <= i < |lh| ==> GetWord(r, 1 + i) == lh[i]
  {
    if lh == [] then h
    else PutWord(PutBlocks(h, lh[..|lh|-1]), |lh|, lh[|lh|-1])
  }

  /** write_head overwrites the count and the first n block numbers only. */
  function EncodeHead(h: Block, lh: seq<nat>): (r: Block)
    requires Encodable(lh)
  {
    PutBlocks(PutWord(h, 0, |lh|), lh)
  }

  function DecodeHead(h: Block): seq<nat>
    requires GetWord(h, 0) < WORDS
  {
    seq(GetWord(h, 0), i requires 0 <= i < WORDS - 1 => GetWord(h, 1 + i))
  }

  lemma HeadRoundTrip(h: Block, lh: seq<nat>)
    requires Encodable(lh)
    ensures GetWord(EncodeHead(h, lh), 0) == |lh|
    ensures DecodeHead(EncodeHead(h, lh)) == lh
  {
  }

  /** Block numbers that log_write collects: no duplicate, none inside the log. */
  ghost predicate Loggable(g: Area, size: nat, lh: seq<nat>) {
    && |lh| <= LOGSIZE
    && (forall i :: 0 <= i < |lh| ==> lh[i] < size && !InLog(g, lh[i]))
    && (forall i, j :: 0 <= i < j < |lh| ==> lh[i] != lh[j])
  }

  /** A transaction with a slot for each of its blocks. */
  ghost predicate GoodTxn(g: Area, size: nat, lh: seq<nat>) {
    |lh| < g.size && Loggable(g, size, lh)
  }

  ghost predicate GoodDisk(g: Area, d: Disk) {
    Fits(g, |d|) && GetWord(d[g.start], 0) < WORDS && GoodTxn(g, |d|, DecodeHead(d[g.start]))
  }

  ghost predicate CleanDisk(g: Area, d: Disk) {
    Fits(g, |d|) && GetWord(d[g.start], 0) == 0
  }

  // ---- sequences of single-block writes ----

  function Put(d: Disk, w: Write): Disk {
    if w.0 < |d| then d[w.0 := w.1] else d
  }

  function Apply(d: Disk, ws: seq<Write>): (r: Disk)
    ensures |r| == |d|
  {
    if ws == [] then d else Put(Apply(d, ws[..|ws|-1]), ws[|ws|-1])
  }

  lemma {:induction false} ApplyUntouched(d: Disk, ws: seq<Write>, b: nat)
    requires b < |d| && forall i :: 0 <= i < |ws| ==> ws[i].0 != b
    ensures Apply(d, ws)[b] == d[b]
  {
    if ws != [] { ApplyUntouched(d, ws[..|ws|-1], b); }
  }

  lemma {:induction false} ApplyLast(d: Disk, ws: seq<Write>, i: nat)
    requires i < |ws| && ws[i].0 < |d| && forall j :: i < j < |ws| ==> ws[j].0 != ws[i].0
    ensures Apply(d, ws)[ws[i].0] == ws[i].1
  {
    if i < |ws| - 1 { ApplyLast(d, ws[..|ws|-1], i); }
  }

  lemma {:induction false} ApplyConcat(d: Disk, a: seq<Write>, b: seq<Write>)
    ensures Apply(d, a + b) == Apply(Apply(d, a), b)
  {
    if b == [] {
      assert a + b == a;
    } else {
      assert (a + b)[..|a + b|-1] == a + b[..|b|-1];
      ApplyConcat(d, a, b[..|b|-1]);
    }
  }

  // ---- what log.c writes ----

  function HomeWrites(lh: seq<nat>, data: seq<Block>): (ws: seq<Write>)
    requires |lh| == |data|
    ensures |ws| == |lh|
  {
    seq(|lh|, i requires 0 <= i < |lh| => (lh[i], data[i]))
  }

  predicate Encodable(lh: seq<nat>) {
    |lh| < WORDS && forall i :: 0 <= i < |lh| ==> lh[i] < 0x1_0000_0000
  }

  /** commit(): log the blocks, write the header, install, erase the header. */
  function CommitWrite(g: Area, h: Block, lh: seq<nat>, data: seq<Block>, j: int): Write
    requires |lh| == |data| && Encodable(lh) && 0 <= j < 2 * |lh| + 2
  {
    if j < |lh| then (g.start + 1 + j, data[j])
    else if j == |lh| then (g.start, EncodeHead(h, lh))
    else if j <= 2 * |lh| then (lh[j - |lh| - 1], data[j - |lh| - 1])
    else (g.start, EncodeHead(EncodeHead(h, lh), []))
  }

  function CommitWrites(g: Area, h: Block, lh: seq<nat>, data: seq<Block>): seq<Write>
    requires |lh| == |data| && Encodable(lh)
  {
    if lh == [] then []
    else seq(2 * |lh| + 2, j requires 0 <= j < 2 * |lh| + 2 => CommitWrite(g, h, lh, data, j))
  }

  function Slots(g: Area, d: Disk, n: nat): (r: seq<Block>)
    requires Fits(g, |d|) && n < g.size
    ensures |r| == n
  {
    d[g.start + 1 .. g.start + 1 + n]
  }

  /** recover_from_log(): install what the header names, erase the header. */
  ghost function RecoverWrites(g: Area, d: Disk): seq<Write>
    requires GoodDisk(g, d)
  {
    var lh := DecodeHead(d[g.start]);
    seq(|lh| + 1, j requires 0 <= j <= |lh| =>
      if j < |lh| then (lh[j], d[g.start + 1 + j]) else (g.start, EncodeHead(d[g.start], [])))
  }

  ghost function Recovered(g: Area, d: Disk): Disk
    requires GoodDisk(g, d)
  {
    Apply(d, RecoverWrites(g, d))
  }

  /** Equality everywhere outside the log. */
  ghost predicate SameHome(g: Area, d: Disk, e: Disk) {
    |d| == |e| && forall b :: 0 <= b < |d| && !InLog(g, b) ==> d[b] == e[b]
  }

  // ---- recovery, block by block ----

  /** Content after the transaction: its blocks replaced, all others as before. */
  ghost function Installed(d: Disk, lh: seq<nat>, data: seq<Block>): Disk
    requires |lh| == |data|
  {
    Apply(d, HomeWrites(lh, data))
  }

  lemma InstalledBlock(d: Disk, lh: seq<nat>, data: seq<Block>, b: nat)
    requires |lh| == |data| && b < |d| && forall i, j :: 0 <= i < j < |lh| ==> lh[i] != lh[j]
    ensures forall i :: 0 <= i < |lh| && lh[i] == b ==> Installed(d, lh, data)[b] == data[i]
    ensures b !in lh ==> Installed(d, lh, data)[b] == d[b]
  {
    forall i | 0 <= i < |lh| && lh[i] == b ensures Installed(d, lh, data)[b] == data[i] {
      ApplyLast(d, HomeWrites(lh, data), i);
    }
    if b !in lh { ApplyUntouched(d, HomeWrites(lh, data), b); }
  }

  lemma RecoveredBlock(g: Area, d: Disk, b: nat)
    requires GoodDisk(g, d) && b < |d| && !InLog(g, b)
    ensures var lh := DecodeHead(d[g.start]);
      (forall i :: 0 <= i < |lh| && lh[i] == b ==> Recovered(g, d)[b] == d[g.start + 1 + i])
      && (b !in lh ==> Recovered(g, d)[b] == d[b])
  {
    var lh := DecodeHead(d[g.start]);
    var ws := RecoverWrites(g, d);
    forall i | 0 <= i < |lh| && lh[i] == b ensures Recovered(g, d)[b] == d[g.start + 1 + i] {
      assert ws[i] == (b, d[g.start + 1 + i]);
      ApplyLast(d, ws, i);
    }
    if b !in lh { ApplyUntouched(d, ws, b); }
  }

  lemma RecoveredHeader(g: Area, d: Disk)
    requires GoodDisk(g, d)
    ensures CleanDisk(g, Recovered(g, d))
  {
    var ws := RecoverWrites(g, d);
    ApplyLast(d, ws, |ws| - 1);
    HeadRoundTrip(d[g.start], []);
  }

  /** A disk that names the same blocks, slot by slot, and agrees elsewhere recovers to the same content. */
  lemma RecoveredFrom(g: Area, d: Disk, lh: seq<nat>, data: seq<Block>, base: Disk)
    requires GoodDisk(g, d) && |base| == |d| && |data| == |lh|
    requires DecodeHead(d[g.start]) == lh
    requires forall i :: 0 <= i < |lh| ==> d[g.start + 1 + i] == data[i]
    requires forall b :: 0 <= b < |d| && !InLog(g, b) && b !in lh ==> d[b] == base[b]
    ensures SameHome(g, Recovered(g, d), Installed(base, lh, data))
  {
    forall b | 0 <= b < |d| && !InLog(g, b) ensures Recovered(g, d)[b] == Installed(base, lh, data)[b] {
      RecoveredBlock(g, d, b);
      InstalledBlock(base, lh, data, b);
    }
  }

  lemma RecoveryCutKeeps(g: Area, d: Disk, k: nat, b: nat)
    requires GoodDisk(g, d) && k < |RecoverWrites(g, d)| && b < |d| && b !in DecodeHead(d[g.start])
    ensures Apply(d, RecoverWrites(g, d)[..k])[b] == d[b]
  {
    var ws := RecoverWrites(g, d)[..k];
    assert forall j :: 0 <= j < k ==> ws[j].0 == DecodeHead(d[g.start])[j];
    ApplyUntouched(d, ws, b);
  }

  lemma RecoveryCut(g: Area, d: Disk, k: nat)
    requires GoodDisk(g, d) && k < |RecoverWrites(g, d)|
    ensures var e := Apply(d, RecoverWrites(g, d)[..k]);
      GoodDisk(g, e) && SameHome(g, Recovered(g, e), Recovered(g, d))
  {
    var lh := DecodeHead(d[g.start]);
    var e := Apply(d, RecoverWrites(g, d)[..k]);
    var data := Slots(g, d, |lh|);
    forall b | 0 <= b < |d| && b !in lh ensures e[b] == d[b] { RecoveryCutKeeps(g, d, k, b); }
    RecoveredFrom(g, e, lh, data, d);
    RecoveredFrom(g, d, lh, data, d);
  }

  /** Recovery may itself be cut after any of its writes: doing it again gives the same disk. */
  lemma RecoveryRestarts(g: Area, d: Disk, k: nat)
    requires GoodDisk(g, d) && k <= |RecoverWrites(g, d)|
    ensures var e := Apply(d, RecoverWrites(g, d)[..k]);
      GoodDisk(g, e) && SameHome(g, Recovered(g, e), Recovered(g, d))
  {
    if k < |RecoverWrites(g, d)| {
      RecoveryCut(g, d, k);
    } else {
      assert RecoverWrites(g, d)[..k] == RecoverWrites(g, d);
      RecoveredHeader(g, d);
      CleanRecoversToItself(g, Recovered(g, d));
    }
  }

  lemma CleanRecoversToItself(g: Area, d: Disk)
    requires CleanDisk(g, d)
    ensures GoodDisk(g, d) && SameHome(g, Recovered(g, d), d)
  {
    assert DecodeHead(d[g.start]) == [];
    forall b | 0 <= b < |d| && !InLog(g, b) ensures Recovered(g, d)[b] == d[b] { RecoveredBlock(g, d, b); }
  }

  // ---- commit, cut anywhere ----

  ghost predicate CanCommit(g: Area, d: Disk, lh: seq<nat>, data: seq<Block>) {
    CleanDisk(g, d) && GoodTxn(g, |d|, lh) && |data| == |lh|
  }

  lemma CommitBeforeHeader(g: Area, d: Disk, lh: seq<nat>, data: seq<Block>, k: nat)
    requires CanCommit(g, d, lh, data) && k <= |lh| && lh != []
    ensures var e := Apply(d, CommitWrites(g, d[g.start], lh, data)[..k]);
      GoodDisk(g, e) && SameHome(g, Recovered(g, e), d)
  {
    var ws := CommitWrites(g, d[g.start], lh, data)[..k];
    var e := Apply(d, ws);
    ApplyUntouched(d, ws, g.start);
    assert DecodeHead(e[g.start]) == [];
    forall b | 0 <= b < |d| && !InLog(g, b) ensures Recovered(g, e)[b] == d[b] {
      RecoveredBlock(g, e, b);
      ApplyUntouched(d, ws, b);
    }
  }

  /** However a commit of blocks lh is cut before its header write, recovery gives back the old disk. */
  ghost predicate InvisibleBefore(g: Area, d: Disk, lh: seq<nat>)
    requires Fits(g, |d|) && Encodable(lh) && lh != []
  {
    forall data: seq<Block>, k: nat | |data| == |lh| && k <= |lh| ::
      var e := Apply(d, CommitWrites(g, d[g.start], lh, data)[..k]);
      GoodDisk(g, e) && SameHome(g, Recovered(g, e), d)
  }

  /** With more blocks than slots, the slot past the end of the log is a home block. */
  lemma CutVisible(g: Area, d: Disk, lh: seq<nat>, data: seq<Block>)
    requires CleanDisk(g, d) && Encodable(lh) && |data| == |lh| >= g.size && g.start + g.size < |d|
    requires data[g.size-1] != d[g.start + g.size]
    ensures var e := Apply(d, CommitWrites(g, d[g.start], lh, data)[..g.size]);
      GoodDisk(g, e) && !SameHome(g, Recovered(g, e), d)
  {
    hide CommitWrite, Apply;
    var e, b := Apply(d, CommitWrites(g, d[g.start], lh, data)[..g.size]), g.start + g.size;
    SlotsOnly(g, d, lh, data);
    assert CleanDisk(g, e);
    CleanRecoversToItself(g, e);
    assert Recovered(g, e)[b] == e[b] != d[b];
  }

  /** The first g.size writes of a commit: they miss the header and reach the block behind the log. */
  lemma SlotsOnly(g: Area, d: Disk, lh: seq<nat>, data: seq<Block>)
    requires Fits(g, |d|) && Encodable(lh) && |data| == |lh| >= g.size && g.start + g.size < |d|
    ensures var e := Apply(d, CommitWrites(g, d[g.start], lh, data)[..g.size]);
      e[g.start] == d[g.start] && e[g.start + g.size] == data[g.size-1]
  {
    hide Apply, EncodeHead;
    var ws := CommitWrites(g, d[g.start], lh, data)[..g.size];
    forall j | 0 <= j < g.size ensures ws[j] == (g.start + 1 + j, data[j]) {
      assert ws[j] == CommitWrite(g, d[g.start], lh, data, j);
    }
    ApplyUntouched(d, ws, g.start);
    ApplyLast(d, ws, g.size - 1);
  }

  /** A cut commit leaves no trace, whatever its data, exactly if every block has a slot. */
  lemma InvisibleIff(g: Area, d: Disk, lh: seq<nat>)
    requires CleanDisk(g, d) && g.start + g.size < |d| && Loggable(g, |d|, lh) && lh != []
    ensures Encodable(lh) && (InvisibleBefore(g, d, lh) <==> |lh| < g.size)
  {
    if |lh| < g.size {
      forall data: seq<Block>, k: nat | |data| == |lh| && k <= |lh|
        ensures var e := Apply(d, CommitWrites(g, d[g.start], lh, data)[..k]);
                GoodDisk(g, e) && SameHome(g, Recovered(g, e), d)
      {
        CommitBeforeHeader(g, d, lh, data, k);
      }
    } else {
      var x := Another(d[g.start + g.size]);
      var data := seq(|lh|, i => x);
      CutVisible(g, d, lh, data);
    }
  }

  function Another(b: Block): (r: Block)
    ensures r != b
  {
    var r: Block := b[0 := if b[0] == 0 then 1 else 0];
    assert r[0] != b[0];
    r
  }

  ghost predicate HeaderWritten(g: Area, d: Disk, lh: seq<nat>, data: seq<Block>, k: nat) {
    CanCommit(g, d, lh, data) && lh != [] && |lh| < k <= 2 * |lh| + 1
  }

  lemma HeaderOnDisk(g: Area, d: Disk, lh: seq<nat>, data: seq<Block>, k: nat)
    requires HeaderWritten(g, d, lh, data, k)
    ensures Apply(d, CommitWrites(g, d[g.start], lh, data)[..k])[g.start] == EncodeHead(d[g.start], lh)
  {
    var ws := CommitWrites(g, d[g.start], lh, data)[..k];
    forall j | |lh| < j < k ensures ws[j].0 != g.start {
      assert ws[j] == CommitWrite(g, d[g.start], lh, data, j);
    }
    ApplyLast(d, ws, |lh|);
  }

  lemma SlotOnDisk(g: Area, d: Disk, lh: seq<nat>, data: seq<Block>, k: nat, i: nat)
    requires HeaderWritten(g, d, lh, data, k) && i < |lh|
    ensures Apply(d, CommitWrites(g, d[g.start], lh, data)[..k])[g.start + 1 + i] == data[i]
  {
    var ws := CommitWrites(g, d[g.start], lh, data)[..k];
    forall j | i < j < k ensures ws[j].0 != g.start + 1 + i {
      assert ws[j] == CommitWrite(g, d[g.start], lh, data, j);
    }
    ApplyLast(d, ws, i);
  }

  lemma OtherOnDisk(g: Area, d: Disk, lh: seq<nat>, data: seq<Block>, k: nat, b: nat)
    requires HeaderWritten(g, d, lh, data, k) && b < |d| && !InLog(g, b) && b !in lh
    ensures Apply(d, CommitWrites(g, d[g.start], lh, data)[..k])[b] == d[b]
  {
    var ws := CommitWrites(g, d[g.start], lh, data)[..k];
    forall j | 0 <= j < k ensures ws[j].0 != b {
      assert ws[j] == CommitWrite(g, d[g.start], lh, data, j);
    }
    ApplyUntouched(d, ws, b);
  }

  lemma CommitAfterHeader(g: Area, d: Disk, lh: seq<nat>, data: seq<Block>, k: nat)
    requires HeaderWritten(g, d, lh, data, k)
    ensures var e := Apply(d, CommitWrites(g, d[g.start], lh, data)[..k]);
      GoodDisk(g, e) && SameHome(g, Recovered(g, e), Installed(d, lh, data))
  {
    var e := Apply(d, CommitWrites(g, d[g.start], lh, data)[..k]);
    HeaderOnDisk(g, d, lh, data, k);
    HeadRoundTrip(d[g.start], lh);
    forall i | 0 <= i < |lh| ensures e[g.start + 1 + i] == data[i] { SlotOnDisk(g, d, lh, data, k, i); }
    forall b | 0 <= b < |d| && !InLog(g, b) && b !in lh ensures e[b] == d[b] { OtherOnDisk(g, d, lh, data, k, b); }
    RecoveredFrom(g, e, lh, data, d);
  }

  lemma CommittedHome(g: Area, d: Disk, lh: seq<nat>, data: seq<Block>, i: nat)
    requires CanCommit(g, d, lh, data) && i < |lh|
    ensures Apply(d, CommitWrites(g, d[g.start], lh, data))[lh[i]] == data[i]
  {
    hide EncodeHead, Apply;
    var ws := CommitWrites(g, d[g.start], lh, data);
    var at := |lh| + 1 + i;
    forall j | at < j < |ws| ensures ws[j].0 != lh[i] { LaterWrite(g, d, lh, data, i, j); }
    assert ws[at] == CommitWrite(g, d[g.start], lh, data, at);
    ApplyLast(d, ws, at);
  }

  /** After block i of the transaction has been installed, nothing is written to it. */
  lemma LaterWrite(g: Area, d: Disk, lh: seq<nat>, data: seq<Block>, i: nat, j: nat)
    requires CanCommit(g, d, lh, data) && i < |lh| && |lh| + 1 + i < j < 2 * |lh| + 2
    ensures CommitWrite(g, d[g.start], lh, data, j).0 != lh[i]
  {
    hide EncodeHead;
    var k := j - |lh| - 1;
    assert k < |lh| ==> lh[k] != lh[i];
  }

  lemma CommittedOther(g: Area, d: Disk, lh: seq<nat>, data: seq<Block>, b: nat)
    requires CanCommit(g, d, lh, data) && b < |d| && !InLog(g, b) && b !in lh
    ensures Apply(d, CommitWrites(g, d[g.start], lh, data))[b] == d[b]
  {
    var ws := CommitWrites(g, d[g.start], lh, data);
    forall j | 0 <= j < |ws| ensures ws[j].0 != b {
      assert ws[j] == CommitWrite(g, d[g.start], lh, data, j);
    }
    ApplyUntouched(d, ws, b);
  }

  lemma CommitComplete(g: Area, d: Disk, lh: seq<nat>, data: seq<Block>)
    requires CanCommit(g, d, lh, data)
    ensures var e := Apply(d, CommitWrites(g, d[g.start], lh, data));
      CleanDisk(g, e) && SameHome(g, e, Installed(d, lh, data))
  {
    if lh != [] {
      var ws := CommitWrites(g, d[g.start], lh, data);
      ApplyLast(d, ws, |ws| - 1);
      HeadRoundTrip(EncodeHead(d[g.start], lh), []);
      forall b | 0 <= b < |d| && !InLog(g, b) ensures Apply(d, ws)[b] == Installed(d, lh, data)[b] {
        InstalledBlock(d, lh, data, b);
        if b in lh {
          var i :| 0 <= i < |lh| && lh[i] == b;
          CommittedHome(g, d, lh, data, i);
        } else {
          CommittedOther(g, d, lh, data, b);
        }
      }
    }
  }

  // ---- whole runs with crashes anywhere ----

  /** `cut` counts the block writes that reach the disk before the power fails. */
  datatype Event =
    | Commit(lh: seq<nat>, data: seq<Block>, cut: nat)
    | Recover(cut: nat)
    | Crash

  datatype Machine = Machine(disk: Disk, up: bool)

  /** A running machine has an empty header; one that is down has a readable one. */
  ghost predicate Sound(g: Area, m: Machine) {
    if m.up then CleanDisk(g, m.disk) else GoodDisk(g, m.disk)
  }

  ghost predicate Possible(g: Area, m: Machine, e: Event)
    requires Sound(g, m)
  {
    match e
    case Commit(lh, data, cut) =>
      && m.up && GoodTxn(g, |m.disk|, lh) && |data| == |lh|
      && cut <= |CommitWrites(g, m.disk[g.start], lh, data)|
    case Recover(cut) => !m.up && cut <= |RecoverWrites(g, m.disk)|
    case Crash => true
  }

  ghost function Next(g: Area, m: Machine, e: Event): (m': Machine)
    requires Sound(g, m) && Possible(g, m, e)
  {
    match e
    case Commit(lh, data, cut) =>
      var ws := CommitWrites(g, m.disk[g.start], lh, data);
      Machine(Apply(m.disk, ws[..cut]), cut == |ws|)
    case Recover(cut) =>
      var ws := RecoverWrites(g, m.disk);
      Machine(Apply(m.disk, ws[..cut]), cut == |ws|)
    case Crash => Machine(m.disk, false)
  }

  /** A transaction counts from the moment its header is on disk, and then it counts whole. */
  ghost function Durable(d: Disk, es: seq<Event>): Disk
    decreases |es|
  {
    if es == [] then d else Durable(DurableStep(d, es[0]), es[1..])
  }

  ghost function DurableStep(d: Disk, e: Event): Disk {
    if e.Commit? && |e.lh| == |e.data| && e.cut > |e.lh| then Installed(d, e.lh, e.data) else d
  }

  /** m stands for the durable content d: directly when running, through recovery when down. */
  ghost predicate Stands(g: Area, m: Machine, d: Disk) {
    Sound(g, m) && SameHome(g, if m.up then m.disk else Recovered(g, m.disk), d)
  }

  lemma InstalledSameHome(g: Area, d: Disk, d': Disk, lh: seq<nat>, data: seq<Block>)
    requires SameHome(g, d, d') && GoodTxn(g, |d|, lh) && |data| == |lh|
    ensures SameHome(g, Installed(d, lh, data), Installed(d', lh, data))
  {
    forall b | 0 <= b < |d| && !InLog(g, b) ensures Installed(d, lh, data)[b] == Installed(d', lh, data)[b] {
      InstalledBlock(d, lh, data, b);
      InstalledBlock(d', lh, data, b);
    }
  }

  lemma StepStands(g: Area, m: Machine, e: Event, d: Disk)
    requires Stands(g, m, d) && Possible(g, m, e)
    ensures Stands(g, Next(g, m, e), DurableStep(d, e))
  {
    match e {
      case Commit(lh, data, cut) =>
        var ws := CommitWrites(g, m.disk[g.start], lh, data);
        InstalledSameHome(g, m.disk, d, lh, data);
        if cut == |ws| {
          assert ws[..cut] == ws;
          CommitComplete(g, m.disk, lh, data);
          assert lh == [] ==> HomeWrites(lh, data) == [];
        } else if cut <= |lh| {
          CommitBeforeHeader(g, m.disk, lh, data, cut);
        } else {
          CommitAfterHeader(g, m.disk, lh, data, cut);
        }
      case Recover(cut) =>
        RecoveryRestarts(g, m.disk, cut);
        if cut == |RecoverWrites(g, m.disk)| {
          assert RecoverWrites(g, m.disk)[..cut] == RecoverWrites(g, m.disk);
          RecoveredHeader(g, m.disk);
        }
      case Crash =>
        if m.up { CleanRecoversToItself(g, m.disk); }
    }
  }

  lemma StepSound(g: Area, m: Machine, e: Event)
    requires Sound(g, m) && Possible(g, m, e)
    ensures Sound(g, Next(g, m, e))
  {
    if m.up { StepStands(g, m, e, m.disk); } else { StepStands(g, m, e, Recovered(g, m.disk)); }
  }

  ghost predicate Happens(g: Area, m: Machine, es: seq<Event>)
    requires Sound(g, m)
    decreases |es|
  {
    es == [] || (Possible(g, m, es[0]) && (StepSound(g, m, es[0]); Happens(g, Next(g, m, es[0]), es[1..])))
  }

  ghost function Outcome(g: Area, m: Machine, es: seq<Event>): (m': Machine)
    requires Sound(g, m) && Happens(g, m, es)
    ensures Sound(g, m')
    decreases |es|
  {
    if es == [] then m else StepSound(g, m, es[0]); Outcome(g, Next(g, m, es[0]), es[1..])
  }

  /**
    Crash atomicity over whole runs.  Commits and recoveries may be cut after any
    single block write, any number of times; recovering whatever is left yields
    exactly the disk with every transaction whose header write completed fully
    installed, and no other transaction visible.
   */
  lemma {:induction false} CrashAtomicity(g: Area, m: Machine, es: seq<Event>, d: Disk)
    requires Stands(g, m, d) && Happens(g, m, es)
    ensures var m' := Outcome(g, m, es);
      && (m'.up ==> SameHome(g, m'.disk, Durable(d, es)))
      && GoodDisk(g, m'.disk) && SameHome(g, Recovered(g, m'.disk), Durable(d, es))
    decreases |es|
  {
    if es == [] {
      if m.up { CleanRecoversToItself(g, m.disk); }
    } else {
      StepStands(g, m, es[0], d);
      CrashAtomicity(g, Next(g, m, es[0]), es[1..], DurableStep(d, es[0]));
    }
  }
}
