/** The buffers told from the calls alone, and which one bget recycles. */
module CacheRuns {
  import opened Seqs
  import opened BufferCache

  // ---- identity, references, lock ----

  /** What the calls say of one buffer: the block last asked for, bgets less brelses, the sleep lock. */
  datatype Tally = Tally(dev: nat, bno: nat, refs: int, locked: bool)

  function Tell(k: Tally, e: Event, i: nat): Tally {
    if e.i != i then k
    else
      match e
      case Get(dev, bno, _) => Tally(dev, bno, k.refs + 1, k.locked)
      case Lock(_) => k.(locked := true)
      case Unlock(_) => k.(locked := false)
      case Unref(_) => k.(refs := k.refs - 1)
      case _ => k
  }

  function TellAll(k: Tally, es: seq<Event>, i: nat): Tally
    decreases |es|
  {
    if es == [] then k else TellAll(Tell(k, es[0], i), es[1..], i)
  }

  function TallyOf(b: Buf): Tally {
    Tally(b.dev, b.blockno, b.refcnt, b.locked)
  }

  lemma StepTally(s: Sys, e: Event, i: nat)
    requires Inv(s) && Enabled(s, e) && i < NBUF
    ensures Inv(Step(s, e)) && TallyOf(Step(s, e).buf[i]) == Tell(TallyOf(s.buf[i]), e, i)
  {
    hide IsOrder, MoveToFront;
    StepInv(s, e);
    assert BufInv(s, i);
  }

  /**
    In every run, from any state: a buffer stands for the block of the last bget that
    chose it, its reference count is the bgets that chose it less the brelses, and its
    lock is as the last call left it.
   */
  lemma {:induction false} BufferTold(s: Sys, es: seq<Event>, i: nat)
    requires Inv(s) && Legal(s, es) && i < NBUF
    ensures TallyOf(Exec(s, es).buf[i]) == TellAll(TallyOf(s.buf[i]), es, i)
    decreases |es|
  {
    hide Enabled, Step, Inv;
    if es != [] {
      StepTally(s, es[0], i);
      BufferTold(Step(s, es[0]), es[1..], i);
    }
  }

  // ---- least recently used ----

  /** e is the brelse that leaves buffer i unreferenced. */
  ghost predicate Frees(s: Sys, e: Event, i: nat)
    requires Inv(s)
  {
    i < NBUF && e == Unref(i) && s.buf[i].refcnt == 1
  }

  /** When buffer i was last left unreferenced: event at, at + 1, ... of es; `was` if not in es. */
  ghost function FreedAt(s: Sys, es: seq<Event>, i: nat, at: nat, was: nat): nat
    requires Inv(s) && Legal(s, es)
    decreases |es|
  {
    if es == [] then was
    else StepInv(s, es[0]); FreedAt(Step(s, es[0]), es[1..], i, at + 1, if Frees(s, es[0], i) then at else was)
  }

  /** Latest first; buffers never freed come last. */
  ghost predicate Recent(order: seq<nat>, freed: seq<nat>)
    requires IsOrder(order) && |freed| == NBUF
  {
    forall a, b :: 0 <= a < b < NBUF ==> freed[order[a]] > freed[order[b]] || freed[order[a]] == freed[order[b]] == 0
  }

  ghost function FreedNow(s: Sys, e: Event, at: nat, freed: seq<nat>): seq<nat>
    requires Inv(s) && |freed| == NBUF
  {
    seq(NBUF, i requires 0 <= i < NBUF => if Frees(s, e, i) then at else freed[i])
  }

  lemma PlaceOf(order: seq<nat>, i: nat) returns (k: nat)
    requires IsOrder(order) && i < NBUF
    ensures k < NBUF && order[k] == i
  {
    Pigeonhole(order, NBUF);
    assert i in order;
    k :| 0 <= k < |order| && order[k] == i;
  }

  /** Where the entries of the new order come from. */
  lemma FrontAt(order: seq<nat>, k: nat, a: nat)
    requires IsOrder(order) && k < NBUF && a < NBUF
    ensures |MoveToFront(order, order[k])| == NBUF
    ensures MoveToFront(order, order[k])[a] == order[if a == 0 then k else if a <= k then a - 1 else a]
  {
    hide Without;
    if a > 0 {
      WithoutIndex(order, k, a - 1);
    } else {
      WithoutAt(order, k) by { assert forall l :: 0 <= l < k ==> order[l] != order[k]; }
    }
  }

  lemma FrontRecent(order: seq<nat>, freed: seq<nat>, i: nat, at: nat)
    requires IsOrder(order) && |freed| == NBUF && Recent(order, freed) && i < NBUF
    requires forall j :: 0 <= j < NBUF ==> freed[j] < at
    ensures IsOrder(MoveToFront(order, i)) && Recent(MoveToFront(order, i), freed[i := at])
  {
    hide MoveToFront;
    MoveToFrontIsOrder(order, i);
    var k := PlaceOf(order, i);
    var r, f := MoveToFront(order, i), freed[i := at];
    forall a, b | 0 <= a < b < NBUF ensures f[r[a]] > f[r[b]] || f[r[a]] == f[r[b]] == 0 {
      FrontAt(order, k, a);
      FrontAt(order, k, b);
      FrontAt(order, k, 0);
      Distinct(r, 0, b);
      if a > 0 { Distinct(r, 0, a); }
    }
  }

  lemma StepRecent(s: Sys, e: Event, at: nat, freed: seq<nat>)
    requires Inv(s) && Enabled(s, e) && |freed| == NBUF && Recent(s.order, freed)
    requires at > 0 && forall j :: 0 <= j < NBUF ==> freed[j] < at
    ensures Inv(Step(s, e)) && Recent(Step(s, e).order, FreedNow(s, e, at, freed))
  {
    hide MoveToFront, Recent;
    StepInv(s, e);
    if e.Unref? && s.buf[e.i].refcnt == 1 {
      FrontRecent(s.order, freed, e.i, at);
      assert FreedNow(s, e, at, freed) == freed[e.i := at];
    } else {
      assert FreedNow(s, e, at, freed) == freed;
    }
  }

  ghost function FreedAll(s: Sys, es: seq<Event>, at: nat, freed: seq<nat>): seq<nat>
    requires Inv(s) && Legal(s, es) && |freed| == NBUF
  {
    seq(NBUF, i requires 0 <= i < NBUF => FreedAt(s, es, i, at, freed[i]))
  }

  lemma {:induction false} RunRecent(s: Sys, es: seq<Event>, at: nat, freed: seq<nat>)
    requires Inv(s) && Legal(s, es) && |freed| == NBUF && Recent(s.order, freed)
    requires at > 0 && forall j :: 0 <= j < NBUF ==> freed[j] < at
    ensures Recent(Exec(s, es).order, FreedAll(s, es, at, freed))
    decreases |es|
  {
    hide Enabled, Step, Recent;
    if es == [] {
      assert FreedAll(s, es, at, freed) == freed;
    } else {
      StepRecent(s, es[0], at, freed);
      var t, now := Step(s, es[0]), FreedNow(s, es[0], at, freed);
      RunRecent(t, es[1..], at + 1, now);
      assert FreedAll(t, es[1..], at + 1, now) == FreedAll(s, es, at, freed);
    }
  }

  /**
    bget recycles the least recently used buffer: after any run from boot, when no
    buffer stands for the block, the one it takes was left unreferenced no later
    than any other buffer that could be recycled.
   */
  lemma LeastRecentlyUsed(s: Sys, es: seq<Event>, dev: nat, bno: nat, i: nat, j: nat)
    requires Boot(s) && Legal(s, es) && Enabled(Exec(s, es), Get(dev, bno, i))
    requires var t := Exec(s, es);
      j < NBUF && Recyclable(t.buf[j]) && !Holds(t.buf[i], dev, bno)
    ensures Recyclable(Exec(s, es).buf[i]) && FreedAt(s, es, i, 1, 0) <= FreedAt(s, es, j, 1, 0)
  {
    var t := Exec(s, es);
    var none := seq(NBUF, k => 0);
    RunRecent(s, es, 1, none);
    var k :| 0 <= k < NBUF && t.order[k] == i && Recyclable(t.buf[i])
      && forall l :: k < l < NBUF ==> !Recyclable(t.buf[t.order[l]]);
    var l := PlaceOf(t.order, j);
    var freed := FreedAll(s, es, 1, none);
    assert l < k ==> freed[t.order[l]] > freed[t.order[k]] || freed[t.order[l]] == freed[t.order[k]] == 0;
  }
}
