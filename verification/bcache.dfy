/**
  The buffer cache of bio.c over the one-block-at-a-time disk of memide.c.

  `Sys` is the cache as a value: one event per critical section, so that a
  sequence of events is any interleaving of any number of processes.  BufferRing
  has the code that performs the events on the doubly linked ring of bio.c.
 */
module BufferCache {
  import opened Blocks
  import opened Seqs

  type pos = x: nat | x > 0 witness 1

  const NBUF: pos
  const ROOTDEV: nat := 1

  datatype Buf = Buf(dev: nat, blockno: nat, valid: bool, dirty: bool,
                     locked: bool, refcnt: nat, data: Block)

  /**
    `order` lists the buffers, most recently used first.  `modified` are the
    locked buffers whose holder changed the data and has not yet called
    log_write or bwrite.  `latest` is the simple disk that the cache stands
    for: one copy of every block, changed only by log_write and bwrite.
   */
  datatype Sys = Sys(disk: Disk, buf: seq<Buf>, order: seq<nat>, modified: set<nat>, latest: Disk)

  predicate Holds(b: Buf, dev: nat, bno: nat) {
    b.dev == dev && b.blockno == bno
  }

  predicate Recyclable(b: Buf) {
    b.refcnt == 0 && !b.dirty
  }

  ghost predicate IsOrder(order: seq<nat>) {
    && |order| == NBUF
    && (forall k :: 0 <= k < NBUF ==> order[k] < NBUF)
    && NoDup(order)
  }

  ghost predicate BufInv(s: Sys, i: nat)
    requires i < |s.buf| && |s.latest| == |s.disk|
  {
    var b := s.buf[i];
    && (b.locked ==> b.refcnt >= 1)
    && (b.dirty ==> b.valid)
    && (b.valid ==> b.dev == ROOTDEV && b.blockno < |s.disk|)
    && (i in s.modified ==> b.locked && b.valid)
    && (b.valid && i !in s.modified ==> b.data == s.latest[b.blockno])
    && (b.valid && !b.dirty ==> s.latest[b.blockno] == s.disk[b.blockno])
  }

  ghost predicate DirtyFor(s: Sys, bno: nat) {
    exists i :: 0 <= i < |s.buf| && s.buf[i].dirty && s.buf[i].blockno == bno
  }

  ghost predicate Inv(s: Sys) {
    && |s.buf| == NBUF
    && IsOrder(s.order)
    && |s.latest| == |s.disk|
    && (forall i, j :: 0 <= i < j < NBUF && s.buf[i].dev != 0 && s.buf[i].dev == s.buf[j].dev
          ==> s.buf[i].blockno != s.buf[j].blockno)
    && (forall i :: 0 <= i < NBUF ==> BufInv(s, i))
    && (forall i :: i in s.modified ==> i < NBUF)
    && (forall b :: 0 <= b < |s.disk| ==> s.disk[b] == s.latest[b] || DirtyFor(s, b))
  }

  datatype Event =
    | Get(dev: nat, bno: nat, i: nat)               // bget up to release(&bcache.lock)
    | Lock(i: nat)                                  // acquiresleep(&b->lock)
    | Fill(i: nat)                                  // iderw reading
    | Modify(i: nat, data: Block)                   // the holder stores into b->data
    | LogWrite(i: nat, bno: nat, data: Block)       // log_write
    | BWrite(i: nat, bno: nat, data: Block)         // bwrite: B_DIRTY, then iderw writing
    | Unlock(i: nat)                                // brelse: releasesleep
    | Unref(i: nat)                                 // brelse: under bcache.lock

  /** The buffer that bget settles on: first hit in MRU order, else last recyclable one. */
  ghost predicate Chosen(s: Sys, dev: nat, bno: nat, i: nat)
    requires Inv(s)
  {
    exists k :: 0 <= k < NBUF && s.order[k] == i &&
      if Holds(s.buf[i], dev, bno) then
        forall l :: 0 <= l < k ==> !Holds(s.buf[s.order[l]], dev, bno)
      else
        && (forall j :: 0 <= j < NBUF ==> !Holds(s.buf[j], dev, bno))
        && Recyclable(s.buf[i])
        && (forall l :: k < l < NBUF ==> !Recyclable(s.buf[s.order[l]]))
  }

  ghost predicate Enabled(s: Sys, e: Event)
    requires Inv(s)
  {
    match e
    case Get(dev, bno, i) => i < NBUF && Chosen(s, dev, bno, i)
    case Lock(i) => i < NBUF && !s.buf[i].locked && s.buf[i].refcnt >= 1
    case Fill(i) => i < NBUF && s.buf[i].locked && !s.buf[i].valid
                    && s.buf[i].dev == ROOTDEV && s.buf[i].blockno < |s.disk|
    case Modify(i, _) => i < NBUF && s.buf[i].locked && s.buf[i].valid
    case LogWrite(i, bno, data) =>
      i < NBUF && s.buf[i].locked && s.buf[i].valid && s.buf[i].blockno == bno && s.buf[i].data == data
    case BWrite(i, bno, data) =>
      i < NBUF && s.buf[i].locked && s.buf[i].valid && s.buf[i].blockno == bno && s.buf[i].data == data
    case Unlock(i) => i < NBUF && s.buf[i].locked && i !in s.modified
    case Unref(i) => i < NBUF && s.buf[i].refcnt >= (if s.buf[i].locked then 2 else 1)
  }

  function MoveToFront(order: seq<nat>, i: nat): seq<nat> {
    if i in order then [i] + Without(order, i) else order
  }

  ghost function Step(s: Sys, e: Event): Sys
    requires Inv(s) && Enabled(s, e)
  {
    assert BufInv(s, e.i);
    match e
    case Get(dev, bno, i) =>
      var b := s.buf[i];
      var b' := if Holds(b, dev, bno) then b.(refcnt := b.refcnt + 1)
                else Buf(dev, bno, false, false, b.locked, 1, b.data);
      s.(buf := s.buf[i := b'])
    case Lock(i) => s.(buf := s.buf[i := s.buf[i].(locked := true)])
    case Fill(i) =>
      s.(buf := s.buf[i := s.buf[i].(data := s.disk[s.buf[i].blockno], valid := true)])
    case Modify(i, data) =>
      s.(buf := s.buf[i := s.buf[i].(data := data)], modified := s.modified + {i})
    case LogWrite(i, bno, data) =>
      s.(buf := s.buf[i := s.buf[i].(dirty := true)],
         modified := s.modified - {i}, latest := s.latest[bno := data])
    case BWrite(i, bno, data) =>
      s.(buf := s.buf[i := s.buf[i].(dirty := false)], disk := s.disk[bno := data],
         modified := s.modified - {i}, latest := s.latest[bno := data])
    case Unlock(i) => s.(buf := s.buf[i := s.buf[i].(locked := false)])
    case Unref(i) =>
      var n := s.buf[i].refcnt - 1;
      s.(buf := s.buf[i := s.buf[i].(refcnt := n)],
         order := if n == 0 then MoveToFront(s.order, i) else s.order)
  }

  // ---- every event keeps the invariant ----

  lemma MoveToFrontIsOrder(order: seq<nat>, i: nat)
    requires IsOrder(order)
    ensures IsOrder(MoveToFront(order, i))
  {
    hide Without;
    WithoutNoDup(order, i);
    var rest := Without(order, i);
    forall k | 0 <= k < |rest| ensures rest[k] < NBUF && rest[k] != i {
      assert rest[k] in rest;
    }
  }

  lemma DirtyKept(s: Sys, t: Sys, i: nat)
    requires |s.buf| == |t.buf| && i < |s.buf|
    requires forall j :: 0 <= j < |s.buf| && j != i ==> t.buf[j] == s.buf[j]
    requires s.buf[i].dirty ==> t.buf[i].dirty && t.buf[i].blockno == s.buf[i].blockno
    ensures forall b :: DirtyFor(s, b) ==> DirtyFor(t, b)
  {
    forall b | DirtyFor(s, b) ensures DirtyFor(t, b) {
      var j :| 0 <= j < |s.buf| && s.buf[j].dirty && s.buf[j].blockno == b;
      assert t.buf[j].dirty && t.buf[j].blockno == b;
    }
  }

  lemma StepBufInv(s: Sys, e: Event, j: nat)
    requires Inv(s) && Enabled(s, e) && j < NBUF
    ensures |Step(s, e).latest| == |Step(s, e).disk| == |s.disk|
    ensures BufInv(Step(s, e), j)
  {
    assert BufInv(s, j) && BufInv(s, e.i);
    if e.Fill? && DirtyFor(s, s.buf[e.i].blockno) {
      var k :| 0 <= k < |s.buf| && s.buf[k].dirty && s.buf[k].blockno == s.buf[e.i].blockno;
      assert BufInv(s, k);
    }
  }

  lemma StepHome(s: Sys, e: Event, b: nat)
    requires Inv(s) && Enabled(s, e) && b < |s.disk|
    ensures var t := Step(s, e); |t.latest| == |t.disk| == |s.disk| && (t.disk[b] == t.latest[b] || DirtyFor(t, b))
  {
    var t := Step(s, e);
    assert BufInv(s, e.i);
    if e.BWrite? {
      if b != e.bno && DirtyFor(s, b) {
        var j :| 0 <= j < |s.buf| && s.buf[j].dirty && s.buf[j].blockno == b;
        assert t.buf[j].dirty && t.buf[j].blockno == b;
      }
    } else {
      DirtyKept(s, t, e.i);
      assert e.LogWrite? ==> t.buf[e.i].dirty && t.buf[e.i].blockno == e.bno;
    }
  }

  lemma StepInv(s: Sys, e: Event)
    requires Inv(s) && Enabled(s, e)
    ensures Inv(Step(s, e))
  {
    var t := Step(s, e);
    MoveToFrontIsOrder(s.order, e.i);
    assert BufInv(s, e.i);
    forall j | 0 <= j < NBUF ensures BufInv(t, j) { StepBufInv(s, e, j); }
    forall b | 0 <= b < |t.disk| ensures t.disk[b] == t.latest[b] || DirtyFor(t, b) { StepHome(s, e, b); }
  }

  // ---- whole runs ----

  ghost predicate Legal(s: Sys, es: seq<Event>)
    requires Inv(s)
    decreases |es|
  {
    es == [] || (Enabled(s, es[0]) && (StepInv(s, es[0]); Legal(Step(s, es[0]), es[1..])))
  }

  ghost function Exec(s: Sys, es: seq<Event>): (t: Sys)
    requires Inv(s) && Legal(s, es)
    ensures Inv(t)
    decreases |es|
  {
    if es == [] then s else StepInv(s, es[0]); Exec(Step(s, es[0]), es[1..])
  }

  /** The simple disk: blocks change at log_write and bwrite, and nowhere else. */
  function SimpleDisk(d: Disk, es: seq<Event>): Disk
    decreases |es|
  {
    if es == [] then d
    else
      var e := es[0];
      var d' := if (e.LogWrite? || e.BWrite?) && e.bno < |d| then d[e.bno := e.data] else d;
      SimpleDisk(d', es[1..])
  }

  /** Blocks given to log_write and not written home by bwrite since. */
  function Pinned(p: set<nat>, es: seq<Event>): set<nat>
    decreases |es|
  {
    if es == [] then p else Pinned(PinStep(p, es[0]), es[1..])
  }

  function PinStep(p: set<nat>, e: Event): set<nat> {
    if e.LogWrite? then p + {e.bno} else if e.BWrite? then p - {e.bno} else p
  }

  /** binit: every buffer empty, device 0. */
  ghost predicate Boot(s: Sys)
    ensures Boot(s) ==> Inv(s)
  {
    && |s.buf| == NBUF && IsOrder(s.order) && s.latest == s.disk && s.modified == {}
    && forall i :: 0 <= i < NBUF ==>
         var b := s.buf[i]; b.dev == 0 && !b.valid && !b.dirty && !b.locked && b.refcnt == 0
  }

  ghost predicate DirtyIs(s: Sys, p: set<nat>) {
    forall b: nat :: b in p <==> DirtyFor(s, b)
  }

  lemma StepPinned(s: Sys, e: Event, p: set<nat>)
    requires Inv(s) && Enabled(s, e) && DirtyIs(s, p)
    ensures DirtyIs(Step(s, e), PinStep(p, e))
  {
    var t := Step(s, e);
    assert BufInv(s, e.i);
    forall b: nat ensures b in PinStep(p, e) <==> DirtyFor(t, b) {
      if DirtyFor(s, b) {
        var j :| 0 <= j < |s.buf| && s.buf[j].dirty && s.buf[j].blockno == b;
        assert j != e.i ==> t.buf[j].dirty && t.buf[j].blockno == b;
        assert BufInv(s, j);
        assert t.buf[e.i].dirty ==> DirtyFor(t, t.buf[e.i].blockno);
      }
      if DirtyFor(t, b) {
        var j :| 0 <= j < |t.buf| && t.buf[j].dirty && t.buf[j].blockno == b;
        assert j != e.i ==> s.buf[j].dirty && s.buf[j].blockno == b;
        assert BufInv(s, j);
      } else if e.LogWrite? {
        assert t.buf[e.i].dirty && t.buf[e.i].blockno == e.bno;
      }
    }
  }

  lemma {:induction false} RunKeeps(s: Sys, es: seq<Event>, p: set<nat>)
    requires Inv(s) && Legal(s, es) && DirtyIs(s, p)
    ensures Exec(s, es).latest == SimpleDisk(s.latest, es)
    ensures DirtyIs(Exec(s, es), Pinned(p, es))
    decreases |es|
  {
    if es != [] {
      var t := Step(s, es[0]);
      StepInv(s, es[0]);
      StepPinned(s, es[0], p);
      assert BufInv(s, es[0].i);
      RunKeeps(t, es[1..], PinStep(p, es[0]));
    }
  }

  /**
    The cache agrees with the simple disk, in every state of every run from boot:
    at most one buffer holds a block; the dirty buffers are exactly those of the
    logged blocks not yet written home; a valid buffer whose holder has no
    unlogged change carries the latest content; and a clean one equals its disk
    block.  So bread returns the latest logged content whatever bget recycled.
   */
  lemma CacheAgreesWithSimpleDisk(s: Sys, es: seq<Event>)
    requires Boot(s) && Legal(s, es)
    ensures var t := Exec(s, es); var simple := SimpleDisk(s.disk, es);
      && |t.buf| == NBUF && |simple| == |t.disk|
      && (forall i, j :: 0 <= i < j < NBUF && t.buf[i].dev != 0 && t.buf[i].dev == t.buf[j].dev
            ==> t.buf[i].blockno != t.buf[j].blockno)
      && (forall b: nat :: b in Pinned({}, es) <==> DirtyFor(t, b))
      && (forall i :: 0 <= i < NBUF && t.buf[i].valid && (!t.buf[i].locked || i !in t.modified) ==>
            && t.buf[i].blockno < |simple|
            && t.buf[i].data == simple[t.buf[i].blockno]
            && (!t.buf[i].dirty ==> t.buf[i].data == t.disk[t.buf[i].blockno]))
      && (forall b :: 0 <= b < |simple| && b !in Pinned({}, es) ==> t.disk[b] == simple[b])
  {
    RunKeeps(s, es, {});
    var t := Exec(s, es);
    forall i | 0 <= i < NBUF && t.buf[i].valid && (!t.buf[i].locked || i !in t.modified)
      ensures t.buf[i].blockno < |t.latest| && t.buf[i].data == t.latest[t.buf[i].blockno]
      ensures !t.buf[i].dirty ==> t.buf[i].data == t.disk[t.buf[i].blockno]
    {
      assert BufInv(t, i);
    }
  }

  // ---- how many buffers the pinned blocks take ----

  ghost function DirtyBufs(buf: seq<Buf>): set<nat> {
    set i | 0 <= i < |buf| && buf[i].dirty
  }

  ghost function DirtyBlocks(buf: seq<Buf>): set<nat> {
    set i | 0 <= i < |buf| && buf[i].dirty :: buf[i].blockno
  }

  ghost predicate DirtyApart(buf: seq<Buf>) {
    forall i, j :: 0 <= i < j < |buf| && buf[i].dirty && buf[j].dirty ==> buf[i].blockno != buf[j].blockno
  }

  lemma DirtyNext(front: seq<Buf>, b: Buf)
    ensures DirtyBufs(front + [b]) == DirtyBufs(front) + if b.dirty then {|front|} else {}
    ensures DirtyBlocks(front + [b]) == DirtyBlocks(front) + if b.dirty then {b.blockno} else {}
  {
    var buf := front + [b];
    assert buf[|front|] == b;
    assert forall i :: 0 <= i < |front| ==> buf[i] == front[i];
  }

  lemma {:induction false} DirtyCount(buf: seq<Buf>)
    requires DirtyApart(buf)
    ensures |DirtyBlocks(buf)| == |DirtyBufs(buf)|
  {
    if buf != [] {
      var front, b := buf[..|buf|-1], buf[|buf|-1];
      assert buf == front + [b];
      DirtyCount(front);
      DirtyNext(front, b);
    }
  }

  lemma InvApart(s: Sys)
    requires Inv(s)
    ensures DirtyApart(s.buf)
  {
    forall i, j | 0 <= i < j < NBUF && s.buf[i].dirty && s.buf[j].dirty ensures s.buf[i].blockno != s.buf[j].blockno {
      assert BufInv(s, i) && BufInv(s, j);
    }
  }

  /** Every pinned block takes one buffer; beyond those and the ones in `held` some buffer is clean. */
  lemma SpareBuffer(s: Sys, p: set<nat>, held: set<nat>)
    requires Inv(s) && DirtyIs(s, p)
    ensures |p| <= NBUF
    ensures |p| + |held| < NBUF ==> exists j :: 0 <= j < NBUF && j !in held && !s.buf[j].dirty
    ensures |p| == NBUF ==> forall j :: 0 <= j < NBUF ==> s.buf[j].dirty
  {
    InvApart(s);
    DirtyCount(s.buf);
    var dirty, all := DirtyBufs(s.buf), Span(0, NBUF);
    assert p == DirtyBlocks(s.buf) by {
      forall b: nat ensures b in p <==> b in DirtyBlocks(s.buf) {
        assert b in p <==> DirtyFor(s, b);
      }
    }
    CardinalityMono(dirty, all);
    if forall j :: 0 <= j < NBUF && j !in held ==> s.buf[j].dirty {
      CardinalityMono(all, dirty + held);
    }
    forall j | 0 <= j < NBUF && !s.buf[j].dirty ensures |p| < NBUF {
      CardinalityMono(dirty, all - {j});
    }
  }

  /** A referenced buffer is never given to another block, whatever other processes do. */
  ghost predicate Referenced(s: Sys, es: seq<Event>, i: nat)
    requires i < NBUF && Inv(s) && Legal(s, es)
    decreases |es|
  {
    s.buf[i].refcnt >= 1 && (es == [] || (StepInv(s, es[0]); Referenced(Step(s, es[0]), es[1..], i)))
  }

  lemma {:induction false} BoundWhileReferenced(s: Sys, es: seq<Event>, i: nat)
    requires i < NBUF && Inv(s) && Legal(s, es) && Referenced(s, es, i)
    ensures Exec(s, es).buf[i].dev == s.buf[i].dev && Exec(s, es).buf[i].blockno == s.buf[i].blockno
    decreases |es|
  {
    if es != [] {
      StepInv(s, es[0]);
      BoundWhileReferenced(Step(s, es[0]), es[1..], i);
    }
  }
}
