/**
  bio.c's own data structure: NBUF buffers on a doubly linked ring through
  `prev`/`next`, with the list head as the extra node number NBUF.  Each method
  performs the matching events of BufferCache.
 */
module BufferRing {
  import opened Blocks
  import opened Seqs
  import opened BufferCache

  /** Node at distance k from the list head, going along `next`. */
  function At(order: seq<nat>, k: int): nat {
    if 1 <= k <= |order| then order[k-1] else NBUF
  }

  ghost predicate Ring(prev: seq<nat>, next: seq<nat>, order: seq<nat>) {
    && |prev| == NBUF + 1 && |next| == NBUF + 1
    && (forall k :: 0 <= k < |order| ==> order[k] < NBUF)
    && NoDup(order)
    && (forall k :: 0 <= k <= |order| ==> next[At(order, k)] == At(order, k + 1))
    && (forall k :: 1 <= k <= |order| + 1 ==> prev[At(order, k)] == At(order, k - 1))
  }

  lemma RingUnlink(prev: seq<nat>, next: seq<nat>, order: seq<nat>, k: nat)
    requires Ring(prev, next, order) && k < |order|
    ensures var i := order[k];
      && next[i] <= NBUF && prev[i] <= NBUF
      && Ring(prev[next[i] := prev[i]], next[prev[i] := next[i]], order[..k] + order[k+1..])
  {
    var i := order[k];
    var rest := order[..k] + order[k+1..];
    assert At(order, k + 1) == i;
    assert next[i] == At(order, k + 2) && prev[i] == At(order, k);
    var prev', next' := prev[next[i] := prev[i]], next[prev[i] := next[i]];
    forall m | 0 <= m <= |rest| ensures next'[At(rest, m)] == At(rest, m + 1) {
      assert At(rest, m) == At(order, if m <= k then m else m + 1);
      assert At(rest, m + 1) == At(order, if m + 1 <= k then m + 1 else m + 2);
    }
    forall m | 1 <= m <= |rest| + 1 ensures prev'[At(rest, m)] == At(rest, m - 1) {
      assert At(rest, m) == At(order, if m <= k then m else m + 1);
      assert At(rest, m - 1) == At(order, if m - 1 <= k then m - 1 else m);
    }
  }

  lemma RingLinkFront(prev: seq<nat>, next: seq<nat>, order: seq<nat>, i: nat)
    requires Ring(prev, next, order) && i < NBUF && i !in order
    ensures next[NBUF] <= NBUF
    ensures Ring(prev[i := NBUF][next[NBUF] := i], next[i := next[NBUF]][NBUF := i], [i] + order)
  {
    var whole := [i] + order;
    assert At(order, 0) == NBUF && At(order, |order| + 1) == NBUF;
    assert next[NBUF] == At(order, 1);
    var prev', next' := prev[i := NBUF][next[NBUF] := i], next[i := next[NBUF]][NBUF := i];
    forall m | 0 <= m <= |whole| ensures next'[At(whole, m)] == At(whole, m + 1) {
      assert m >= 1 ==> At(whole, m + 1) == At(order, m);
      assert m >= 2 ==> At(whole, m) == At(order, m - 1);
    }
    forall m | 1 <= m <= |whole| + 1 ensures prev'[At(whole, m)] == At(whole, m - 1) {
      assert m >= 2 ==> At(whole, m) == At(order, m - 1);
      assert m >= 3 ==> At(whole, m - 1) == At(order, m - 2);
    }
  }

  /** The block is not cached and no buffer can be recycled for it. */
  predicate NoBuffer(buf: seq<Buf>, dev: nat, bno: nat) {
    forall j :: 0 <= j < |buf| ==> !Holds(buf[j], dev, bno) && !Recyclable(buf[j])
  }

  /** Every buffer holds a pinned block, from lo on, and nobody refers to one. */
  ghost function AllPinned(d: Disk, lo: nat): Sys
    requires lo + NBUF <= |d|
  {
    Sys(d, seq(NBUF, i requires 0 <= i < NBUF => Buf(ROOTDEV, lo + i, true, true, false, 0, d[lo+i])),
        seq(NBUF, i requires 0 <= i < NBUF => i), {}, d)
  }

  /** In such a cache bread of any other block panics: a commit of NBUF blocks cannot read its first slot. */
  lemma AllPinnedStops(d: Disk, lo: nat, bno: nat)
    requires lo + NBUF <= |d| && !(lo <= bno < lo + NBUF)
    ensures var s := AllPinned(d, lo);
      && Inv(s) && DirtyIs(s, Span(lo, lo + NBUF)) && |Span(lo, lo + NBUF)| == NBUF
      && (forall j :: 0 <= j < NBUF ==> s.buf[j].refcnt == 0)
      && NoBuffer(s.buf, ROOTDEV, bno)
  {
    var s := AllPinned(d, lo);
    forall i | 0 <= i < NBUF ensures BufInv(s, i) {}
    forall b: nat ensures b in Span(lo, lo + NBUF) <==> DirtyFor(s, b) {
      if lo <= b < lo + NBUF { assert s.buf[b-lo].dirty && s.buf[b-lo].blockno == b; }
    }
  }

  /** Nobody has the block locked. */
  predicate Unheld(buf: seq<Buf>, dev: nat, bno: nat) {
    forall j :: 0 <= j < |buf| && Holds(buf[j], dev, bno) ==> !buf[j].locked
  }

  class Cache {
    var disk: Disk
    var buf: seq<Buf>
    var prev: seq<nat>
    var next: seq<nat>
    ghost var order: seq<nat>
    ghost var modified: set<nat>
    ghost var latest: Disk
    ghost var pinned: set<nat>              // logged blocks not yet written home
    ghost var writes: seq<(nat, Block)>     // every block write that reached the disk, in order

    ghost function View(): Sys
      reads this
    {
      Sys(disk, buf, order, modified, latest)
    }

    ghost predicate Valid()
      reads this
      ensures Valid() ==> |buf| == NBUF && |latest| == |disk|
    {
      Inv(View()) && Ring(prev, next, order) && DirtyIs(View(), pinned)
    }

    constructor (image: Disk)
      ensures Valid() && Boot(View()) && disk == image && writes == [] && pinned == {}
      ensures forall k :: 0 <= k < NBUF ==> order[k] == NBUF - 1 - k
    {
      disk := image;
      buf := seq(NBUF, i => Buf(0, 0, false, false, false, 0, ZeroBlock()));
      modified, latest, writes, pinned := {}, image, [], {};
      prev, next := seq(NBUF + 1, i => NBUF), seq(NBUF + 1, i => NBUF);
      order := [];
      new;
      var b := 0;
      while b < NBUF
        invariant 0 <= b <= NBUF == |buf|
        invariant Ring(prev, next, order) && |order| == b
        invariant forall k :: 0 <= k < b ==> order[k] == b - 1 - k
        invariant disk == latest == image && modified == {} && writes == [] && pinned == {}
        invariant forall i :: 0 <= i < NBUF ==> buf[i] == Buf(0, 0, false, false, false, 0, ZeroBlock())
      {
        RingLinkFront(prev, next, order, b);
        next := next[b := next[NBUF]];
        prev := prev[b := NBUF];
        prev := prev[next[NBUF] := b];
        next := next[NBUF := b];
        order := [b] + order;
        b := b + 1;
      }
      assert forall i :: 0 <= i < NBUF ==> BufInv(View(), i);
    }

    lemma HomeUnlessPinned()
      requires Valid()
      ensures forall b :: 0 <= b < |disk| && disk[b] != latest[b] ==> b in pinned
    {
    }

    /** No process holds a reference to a buffer. */
    ghost predicate Quiet()
      reads this
    {
      forall j :: 0 <= j < |buf| ==> buf[j].refcnt == 0
    }

    /** In a quiet cache bread finds no buffer exactly if the pinned blocks, all others, take every one. */
    lemma FirstRead(bno: nat)
      requires Valid() && Quiet()
      ensures NoBuffer(buf, ROOTDEV, bno) <==> |pinned| == NBUF && bno !in pinned
      ensures |pinned| <= NBUF
    {
      SpareBuffer(View(), pinned, {});
      assert forall j :: 0 <= j < NBUF && buf[j].dirty ==> BufInv(View(), j) && DirtyFor(View(), buf[j].blockno);
      assert bno in pinned <==> DirtyFor(View(), bno);
    }

    /** A second read beside buffer a needs a buffer only if its block is not pinned. */
    lemma SecondRead(a: nat, bno: nat)
      requires Valid() && a < NBUF && buf[a].valid
      requires forall j :: 0 <= j < NBUF && j != a ==> buf[j].refcnt == 0
      requires bno in pinned || |pinned| + (if buf[a].blockno in pinned then 0 else 1) < NBUF
      ensures !NoBuffer(buf, ROOTDEV, bno)
    {
      assert BufInv(View(), a);
      if bno in pinned {
        var j :| 0 <= j < NBUF && buf[j].dirty && buf[j].blockno == bno;
        assert BufInv(View(), j);
        assert Holds(buf[j], ROOTDEV, bno);
      } else if buf[a].blockno in pinned {
        SpareBuffer(View(), pinned, {});
        var j :| 0 <= j < NBUF && buf[j].dirty && buf[j].blockno == buf[a].blockno;
        assert BufInv(View(), j);
        assert j == a;
        var k :| 0 <= k < NBUF && !buf[k].dirty;
        assert Recyclable(buf[k]);
      } else {
        SpareBuffer(View(), pinned, {a});
        var k :| 0 <= k < NBUF && k !in {a} && !buf[k].dirty;
        assert Recyclable(buf[k]);
      }
    }

    /** First scan of bget: the cached buffer nearest the head of the list, or -1. */
    method FindCached(dev: nat, bno: nat) returns (r: int)
      requires Valid()
      ensures -1 <= r < NBUF
      ensures r >= 0 ==> Holds(buf[r], dev, bno) && Chosen(View(), dev, bno, r)
      ensures r == -1 ==> forall j :: 0 <= j < NBUF ==> !Holds(buf[j], dev, bno)
    {
      Pigeonhole(order, NBUF);
      assert At(order, 0) == NBUF;
      r := next[NBUF];
      ghost var k := 1;
      while r != NBUF
        invariant 1 <= k <= NBUF + 1 && r == At(order, k)
        invariant forall l :: 0 <= l < k - 1 ==> !Holds(buf[order[l]], dev, bno)
        decreases NBUF + 1 - k
      {
        if buf[r].dev == dev && buf[r].blockno == bno {
          assert order[k-1] == r;
          return;
        }
        r := next[r];
        k := k + 1;
      }
      forall j | 0 <= j < NBUF ensures !Holds(buf[j], dev, bno) {
        assert j in order;
        var l :| 0 <= l < NBUF && order[l] == j;
      }
      r := -1;
    }

    /** Second scan of bget: the recyclable buffer nearest the tail of the list, or -1. */
    method FindRecyclable() returns (r: int)
      requires Valid()
      ensures -1 <= r < NBUF
      ensures r >= 0 ==> exists k :: 0 <= k < NBUF && order[k] == r && Recyclable(buf[r])
                           && forall l :: k < l < NBUF ==> !Recyclable(buf[order[l]])
      ensures r == -1 ==> forall j :: 0 <= j < NBUF ==> !Recyclable(buf[j])
    {
      Pigeonhole(order, NBUF);
      assert At(order, NBUF + 1) == NBUF;
      r := prev[NBUF];
      ghost var k := NBUF;
      while r != NBUF
        invariant 0 <= k <= NBUF && r == At(order, k)
        invariant forall l :: k <= l < NBUF ==> !Recyclable(buf[order[l]])
        decreases k
      {
        if buf[r].refcnt == 0 && !buf[r].dirty {
          assert order[k-1] == r;
          return;
        }
        r := prev[r];
        k := k - 1;
      }
      forall j | 0 <= j < NBUF ensures !Recyclable(buf[j]) {
        assert j in order;
        var l :| 0 <= l < NBUF && order[l] == j;
      }
      r := -1;
    }

    /** Returns -1 where bio.c panics with "bget: no buffers". */
    method Bget(dev: nat, bno: nat) returns (r: int)
      requires Valid()
      modifies this
      ensures Valid() && writes == old(writes) && pinned == old(pinned)
      ensures r == -1 <==> NoBuffer(old(buf), dev, bno)
      ensures r == -1 ==> View() == old(View())
      ensures r != -1 ==> 0 <= r < NBUF && Enabled(old(View()), Get(dev, bno, r))
                          && View() == Step(old(View()), Get(dev, bno, r))
    {
      r := FindCached(dev, bno);
      if r >= 0 {
        StepInv(View(), Get(dev, bno, r));
        StepPinned(View(), Get(dev, bno, r), pinned);
        buf := buf[r := buf[r].(refcnt := buf[r].refcnt + 1)];
        return;
      }
      r := FindRecyclable();
      if r >= 0 {
        assert Chosen(View(), dev, bno, r);
        StepInv(View(), Get(dev, bno, r));
        StepPinned(View(), Get(dev, bno, r), pinned);
        buf := buf[r := buf[r].(dev := dev, blockno := bno, valid := false, dirty := false, refcnt := 1)];
      }
    }

    /**
      bread.  Returns -1 where the kernel panics (no buffers; iderw asked for another
      disk or past its end).  When another process has the buffer locked, `got` is
      false and the caller, which has its reference, waits to go on with Resume.
     */
    method Bread(dev: nat, bno: nat) returns (r: int, got: bool)
      requires Valid()
      modifies this
      ensures Valid()
      ensures disk == old(disk) && latest == old(latest) && modified == old(modified)
      ensures writes == old(writes) && pinned == old(pinned)
      ensures -1 <= r < NBUF && (got ==> r >= 0)
      ensures r == -1 ==> dev != ROOTDEV || bno >= |disk| || NoBuffer(old(buf), dev, bno)
      ensures Unheld(old(buf), dev, bno) ==>
        && (r >= 0 ==> got)
        && (r == -1 <==> dev != ROOTDEV || bno >= |disk| || NoBuffer(old(buf), dev, bno))
      ensures r >= 0 ==> Holds(buf[r], dev, bno) && buf[r].refcnt == old(buf)[r].refcnt + 1
      ensures r >= 0 ==> forall j :: 0 <= j < NBUF && j != r ==> buf[j] == old(buf)[j]
      ensures r >= 0 && !got ==>
        old(buf)[r].locked && Enabled(old(View()), Get(dev, bno, r)) && View() == Step(old(View()), Get(dev, bno, r))
      ensures got ==> var b := buf[r];
        && !old(buf)[r].locked && dev == ROOTDEV && bno < |disk| && b.locked && b.valid
        && b.data == latest[bno] && b.dirty == old(buf)[r].dirty && r !in modified
        && (b.dirty ==> old(buf)[r].blockno == bno)
    {
      r := Bget(dev, bno);
      if r == -1 { return -1, false; }
      assert BufInv(old(View()), r) && BufInv(View(), r);
      if buf[r].locked { return r, false; }
      got := Resume(r);
      if !got { return -1, false; }
    }

    /** The rest of bread, once the caller gets the lock of its buffer; false is a panic of iderw. */
    method Resume(r: nat) returns (ok: bool)
      requires Valid() && r < NBUF && buf[r].refcnt >= 1 && !buf[r].locked
      modifies this
      ensures Valid()
      ensures disk == old(disk) && latest == old(latest) && modified == old(modified)
      ensures writes == old(writes) && pinned == old(pinned)
      ensures ok <==> old(buf)[r].dev == ROOTDEV && old(buf)[r].blockno < |disk|
      ensures ok ==>
        && old(buf)[r].blockno < |latest|
        && buf == old(buf)[r := old(buf)[r].(locked := true, valid := true, data := latest[old(buf)[r].blockno])]
    {
      assert BufInv(View(), r);
      StepInv(View(), Lock(r));
      StepPinned(View(), Lock(r), pinned);
      buf := buf[r := buf[r].(locked := true)];
      assert BufInv(View(), r);
      if !buf[r].valid {
        if buf[r].dev != ROOTDEV || buf[r].blockno >= |disk| { return false; }
        StepInv(View(), Fill(r));
        StepPinned(View(), Fill(r), pinned);
        buf := buf[r := buf[r].(data := disk[buf[r].blockno], valid := true)];
        assert BufInv(View(), r);
      }
      return true;
    }

    /** The holder stores into b->data. */
    method Store(i: nat, data: Block)
      requires Valid() && i < NBUF && buf[i].locked && buf[i].valid
      modifies this
      ensures Valid() && writes == old(writes) && pinned == old(pinned)
      ensures View() == Step(old(View()), Modify(i, data))
      ensures buf == old(buf)[i := old(buf)[i].(data := data)] && modified == old(modified) + {i}
      ensures disk == old(disk) && latest == old(latest)
    {
      StepInv(View(), Modify(i, data));
      StepPinned(View(), Modify(i, data), pinned);
      buf := buf[i := buf[i].(data := data)];
      modified := modified + {i};
    }

    /** The last line of log_write: pin the buffer. */
    method Pin(i: nat)
      requires Valid() && i < NBUF && buf[i].locked && buf[i].valid
      modifies this
      ensures Valid() && writes == old(writes) && pinned == old(pinned) + {old(buf[i].blockno)}
      ensures old(buf[i].blockno) < |disk| && disk == old(disk) && modified == old(modified) - {i}
      ensures View() == Step(old(View()), LogWrite(i, old(buf[i].blockno), old(buf[i].data)))
      ensures buf == old(buf)[i := old(buf)[i].(dirty := true)]
      ensures latest == old(latest)[old(buf[i].blockno) := old(buf[i].data)]
    {
      assert BufInv(View(), i);
      StepInv(View(), LogWrite(i, buf[i].blockno, buf[i].data));
      StepPinned(View(), LogWrite(i, buf[i].blockno, buf[i].data), pinned);
      buf := buf[i := buf[i].(dirty := true)];
      pinned := pinned + {buf[i].blockno};
      modified := modified - {i};
      latest := latest[buf[i].blockno := buf[i].data];
    }

    method Bwrite(i: nat)
      requires Valid() && i < NBUF && buf[i].locked && buf[i].valid
      modifies this
      ensures Valid() && pinned == old(pinned) - {old(buf[i].blockno)}
      ensures writes == old(writes) + [(old(buf[i].blockno), old(buf[i].data))]
      ensures old(buf[i].blockno) < |old(disk)| && modified == old(modified) - {i}
      ensures View() == Step(old(View()), BWrite(i, old(buf[i].blockno), old(buf[i].data)))
      ensures buf == old(buf)[i := old(buf)[i].(dirty := false)]
      ensures disk == old(disk)[old(buf[i].blockno) := old(buf[i].data)]
      ensures latest == old(latest)[old(buf[i].blockno) := old(buf[i].data)]
    {
      assert BufInv(View(), i);
      StepInv(View(), BWrite(i, buf[i].blockno, buf[i].data));
      StepPinned(View(), BWrite(i, buf[i].blockno, buf[i].data), pinned);
      buf := buf[i := buf[i].(dirty := true)];
      // iderw, writing
      buf := buf[i := buf[i].(dirty := false)];
      disk := disk[buf[i].blockno := buf[i].data];
      buf := buf[i := buf[i].(valid := true)];
      pinned := pinned - {buf[i].blockno};
      modified := modified - {i};
      latest := latest[buf[i].blockno := buf[i].data];
      writes := writes + [(buf[i].blockno, buf[i].data)];
      assert buf == old(buf)[i := old(buf)[i].(dirty := false)];
    }

    method Brelse(i: nat)
      requires Valid() && i < NBUF && buf[i].locked && i !in modified
      modifies this
      ensures Valid() && writes == old(writes) && pinned == old(pinned)
      ensures Enabled(old(View()), Unlock(i))
      ensures Inv(Step(old(View()), Unlock(i))) && Enabled(Step(old(View()), Unlock(i)), Unref(i))
      ensures View() == Step(Step(old(View()), Unlock(i)), Unref(i))
      ensures disk == old(disk) && latest == old(latest) && modified == old(modified)
      ensures old(buf[i].refcnt) >= 1
      ensures buf == old(buf)[i := old(buf)[i].(locked := false, refcnt := old(buf[i].refcnt) - 1)]
    {
      hide Ring, MoveToFront, DirtyIs;
      assert BufInv(View(), i);
      StepInv(View(), Unlock(i));
      StepPinned(View(), Unlock(i), pinned);
      buf := buf[i := buf[i].(locked := false)];
      StepInv(View(), Unref(i));
      StepPinned(View(), Unref(i), pinned);
      buf := buf[i := buf[i].(refcnt := buf[i].refcnt - 1)];
      if buf[i].refcnt == 0 {
        MoveFirst(i);
      }
    }

    /** The relinking at the end of brelse. */
    method MoveFirst(i: nat)
      requires IsOrder(order) && Ring(prev, next, order) && i < NBUF
      modifies this`prev, this`next, this`order
      ensures Ring(prev, next, order) && order == MoveToFront(old(order), i)
    {
      Pigeonhole(order, NBUF);
      assert i in order;
      ghost var k :| 0 <= k < NBUF && order[k] == i;
      WithoutAt(order, k);
      RingUnlink(prev, next, order, k);
      prev := prev[next[i] := prev[i]];
      next := next[prev[i] := next[i]];
      order := order[..k] + order[k+1..];
      RingLinkFront(prev, next, order, i);
      next := next[i := next[NBUF]];
      prev := prev[i := NBUF];
      prev := prev[next[NBUF] := i];
      next := next[NBUF := i];
      order := [i] + order;
    }
  }
}
