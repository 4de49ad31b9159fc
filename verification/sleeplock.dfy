/**
  Sleep locks (sleeplock.c) over sleep, wakeup and kill of proc.c, for any number
  of processes and locks.  Every acquire or release of a spinlock and every
  change of shared state is a step of its own; steps of different processes
  interleave in any order.
 */
module SleepLocks {

  datatype Link = Null | To(i: nat)

  /** Where a process is; l is a sleep lock. */
  datatype Pc =
    | Out
    | Enter(l: nat)      // acquiresleep: wants the inner spinlock
    | Check(l: nat)      //   has it, about to look at `locked`
    | Doze(l: nat)       // sleep: has the inner spinlock, wants ptable.lock
    | Drop(l: nat)       //   has both, about to release the inner one
    | Park(l: nat)       //   has ptable.lock, about to go to sleep
    | Asleep(l: nat)     //   in sched, on no CPU
    | Back(l: nat)       //   running again with ptable.lock
    | Taken(l: nat)      // acquiresleep: has set `locked`, about to release the inner spinlock
    | Leave(l: nat)      // releasesleep: wants the inner spinlock
    | Clear(l: nat)      //   has it, about to reset `locked`
    | Call(l: nat)       // wakeup: wants ptable.lock
    | Wake(l: nat)       //   has it, about to wake the sleepers
    | Done(l: nat)       // releasesleep: about to release the inner spinlock
    | Kill(q: nat)       // kill: has ptable.lock

  /** mine[p]: the sleep locks p has acquired and not released. */
  datatype Sys = Sys(pc: seq<Pc>, sleeping: seq<bool>, mine: seq<set<nat>>,
                     locked: seq<bool>, pid: seq<Link>, inner: seq<Link>, ptable: Link)

  datatype Event =
    | Acquire(p: nat, l: nat)      // a call of acquiresleep
    | Release(p: nat, l: nat)      // a call of releasesleep, by a process that holds the lock
    | Signal(p: nat, q: nat)       // a call of kill, with ptable.lock
    | Resume(p: nat)               // the scheduler switches to p
    | Next(p: nat)                 // the next step of the call p is in

  predicate HasInner(c: Pc, l: nat) {
    (c.Check? || c.Doze? || c.Drop? || c.Taken? || c.Clear? || c.Call? || c.Wake? || c.Done?) && c.l == l
  }

  predicate HasTable(c: Pc) {
    c.Drop? || c.Park? || c.Back? || c.Wake? || c.Kill?
  }

  predicate Shape(s: Sys) {
    |s.sleeping| == |s.pc| && |s.mine| == |s.pc| && |s.pid| == |s.locked| && |s.inner| == |s.locked|
  }

  /** The lock a process is busy with exists. */
  predicate PcOk(s: Sys, c: Pc) {
    match c
    case Out => true
    case Kill(q) => true
    case _ => c.l < |s.locked|
  }

  predicate Enabled(s: Sys, e: Event) {
    && Shape(s) && e.p < |s.pc|
    && match e
       case Acquire(p, l) => s.pc[p] == Out && l < |s.locked|
       case Release(p, l) => s.pc[p] == Out && l in s.mine[p] && l < |s.locked|
       case Signal(p, q) => s.pc[p] == Out && q < |s.pc| && s.ptable == Null
       case Resume(p) => s.pc[p].Asleep? && !s.sleeping[p] && s.ptable == Null
       case Next(p) =>
         && PcOk(s, s.pc[p])
         && match s.pc[p]
            case Out => false
            case Asleep(l) => false
            case Enter(l) => s.inner[l] == Null
            case Doze(l) => s.ptable == Null
            case Leave(l) => s.inner[l] == Null
            case Call(l) => s.ptable == Null
            case _ => true
  }

  /** wakeup1: every process asleep on l becomes runnable. */
  function Woken(s: Sys, l: nat): (w: seq<bool>)
    requires Shape(s)
    ensures |w| == |s.pc|
    ensures forall q: nat :: q < |s.pc| ==> (w[q] <==> s.sleeping[q] && s.pc[q] != Asleep(l))
  {
    seq(|s.pc|, q requires 0 <= q < |s.pc| => s.sleeping[q] && s.pc[q] != Asleep(l))
  }

  function Step(s: Sys, e: Event): Sys
    requires Enabled(s, e)
  {
    match e
    case Acquire(p, l) => s.(pc := s.pc[p := Enter(l)])
    case Release(p, l) => s.(pc := s.pc[p := Leave(l)])
    case Signal(p, q) => s.(pc := s.pc[p := Pc.Kill(q)], ptable := To(p))
    case Resume(p) => s.(pc := s.pc[p := Back(s.pc[p].l)], ptable := To(p))
    case Next(p) =>
      match s.pc[p]
      case Out => s
      case Asleep(l) => s
      case Enter(l) => s.(pc := s.pc[p := Check(l)], inner := s.inner[l := To(p)])
      case Check(l) =>
        if s.locked[l] then s.(pc := s.pc[p := Doze(l)])
        else s.(pc := s.pc[p := Taken(l)], locked := s.locked[l := true], pid := s.pid[l := To(p)],
          mine := s.mine[p := s.mine[p] + {l}])
      case Doze(l) => s.(pc := s.pc[p := Drop(l)], ptable := To(p))
      case Drop(l) => s.(pc := s.pc[p := Park(l)], inner := s.inner[l := Null])
      case Park(l) => s.(pc := s.pc[p := Asleep(l)], sleeping := s.sleeping[p := true], ptable := Null)
      case Back(l) => s.(pc := s.pc[p := Enter(l)], ptable := Null)
      case Taken(l) => s.(pc := s.pc[p := Out], inner := s.inner[l := Null])
      case Leave(l) => s.(pc := s.pc[p := Clear(l)], inner := s.inner[l := To(p)])
      case Clear(l) =>
        s.(pc := s.pc[p := Call(l)], locked := s.locked[l := false], pid := s.pid[l := Null],
          mine := s.mine[p := s.mine[p] - {l}])
      case Call(l) => s.(pc := s.pc[p := Wake(l)], ptable := To(p))
      case Wake(l) => s.(pc := s.pc[p := Done(l)], sleeping := Woken(s, l), ptable := Null)
      case Done(l) => s.(pc := s.pc[p := Out], inner := s.inner[l := Null])
      case Kill(q) => s.(pc := s.pc[p := Out], sleeping := if q < |s.sleeping| then s.sleeping[q := false]
        else s.sleeping, ptable := Null)
  }

  // ---- what every reachable state satisfies ----

  /** p's place and the spinlocks agree. */
  ghost predicate PlaceOk(s: Sys, p: nat)
    requires Shape(s) && p < |s.pc|
  {
    var c := s.pc[p];
    && PcOk(s, c)
    && (forall l: nat :: l < |s.inner| ==> (s.inner[l] == To(p) <==> HasInner(c, l)))
    && (s.ptable == To(p) <==> HasTable(c))
    && (s.sleeping[p] ==> c.Asleep?)
  }

  /** p's place and the sleep lock it works on agree. */
  ghost predicate WorkOk(s: Sys, p: nat)
    requires Shape(s) && p < |s.pc|
  {
    var c := s.pc[p];
    PcOk(s, c) ==>
      && (c.Taken? || c.Leave? || c.Clear? ==> c.l in s.mine[p])
      && (c.Doze? || c.Drop? ==> s.locked[c.l])
      && (c.Park? || (c.Asleep? && s.sleeping[p]) ==> s.locked[c.l] || BeingWoken(s, c.l))
  }

  /** Someone has reset `locked` and will still wake the sleepers. */
  ghost predicate BeingWoken(s: Sys, l: nat) {
    l < |s.inner| && s.inner[l].To? && s.inner[l].i < |s.pc|
      && (s.pc[s.inner[l].i] == Call(l) || s.pc[s.inner[l].i] == Wake(l))
  }

  /** Each sleep lock is locked, under its holder's pid, exactly if a process has it. */
  ghost predicate HolderOk(s: Sys, l: nat)
    requires Shape(s) && l < |s.locked|
  {
    && (s.locked[l] <==> s.pid[l].To?)
    && (s.pid[l].To? ==> s.pid[l].i < |s.pc|)
    && (forall p: nat :: p < |s.pc| ==> (l in s.mine[p] <==> s.pid[l] == To(p)))
  }

  ghost predicate Known(l: Link, n: nat) {
    l.To? ==> l.i < n
  }

  ghost predicate Inv(s: Sys) {
    && Shape(s)
    && (forall p: nat :: p < |s.pc| ==> PlaceOk(s, p) && WorkOk(s, p))
    && (forall l: nat :: l < |s.locked| ==> HolderOk(s, l))
    && (forall p: nat, l: nat :: p < |s.pc| && l in s.mine[p] ==> l < |s.locked|)
    && Known(s.ptable, |s.pc|) && (forall l: nat :: l < |s.inner| ==> Known(s.inner[l], |s.pc|))
  }

  lemma PlaceOther(s: Sys, e: Event, q: nat)
    requires Inv(s) && Enabled(s, e) && q < |s.pc| && q != e.p
    ensures Shape(Step(s, e)) && |Step(s, e).pc| == |s.pc| && PlaceOk(Step(s, e), q)
  {
    assert PlaceOk(s, q) && PlaceOk(s, e.p);
  }

  lemma PlaceSelf(s: Sys, e: Event)
    requires Inv(s) && Enabled(s, e)
    ensures Shape(Step(s, e)) && |Step(s, e).pc| == |s.pc| && PlaceOk(Step(s, e), e.p)
  {
    assert PlaceOk(s, e.p);
  }

  lemma StepHolder(s: Sys, e: Event, l: nat)
    requires Inv(s) && Enabled(s, e) && l < |s.locked|
    ensures Shape(Step(s, e)) && |Step(s, e).locked| == |s.locked| && HolderOk(Step(s, e), l)
  {
    hide Woken, BeingWoken, PlaceOk;
    assert HolderOk(s, l) && WorkOk(s, e.p) && (PcOk(s, s.pc[e.p]) && s.pc[e.p].Clear? ==> HolderOk(s, s.pc[e.p].l));
  }

  /** A lock that is clear while someone may be asleep on it stays being woken until all are awake. */
  lemma StillWoken(s: Sys, e: Event, l: nat)
    requires Inv(s) && Enabled(s, e) && BeingWoken(s, l)
    ensures BeingWoken(Step(s, e), l) || e == Next(s.inner[l].i)
  {
    assert PlaceOk(s, e.p) && PlaceOk(s, s.inner[l].i);
  }

  /** A process that sleeps or is about to, while another one moves. */
  lemma SleeperOther(s: Sys, e: Event, q: nat)
    requires Inv(s) && Enabled(s, e) && q < |s.pc| && q != e.p
    requires s.pc[q].Park? || (s.pc[q].Asleep? && s.sleeping[q])
    ensures WorkOk(Step(s, e), q)
  {
    hide HolderOk;
    assert PlaceOk(s, q) && WorkOk(s, q) && PlaceOk(s, e.p) && WorkOk(s, e.p);
    var c, t := s.pc[q], Step(s, e);
    assert s.inner[c.l] == To(e.p) <==> HasInner(s.pc[e.p], c.l);
    if BeingWoken(s, c.l) {
      StillWoken(s, e, c.l);
    } else if s.pc[e.p] == Clear(c.l) && e == Next(e.p) {
      assert BeingWoken(t, c.l);
    }
  }

  lemma WorkOther(s: Sys, e: Event, q: nat)
    requires Inv(s) && Enabled(s, e) && q < |s.pc| && q != e.p
    ensures WorkOk(Step(s, e), q)
  {
    hide PlaceOk, WorkOk, HolderOk, Step;
    var c := s.pc[q];
    if c.Park? || (c.Asleep? && s.sleeping[q]) {
      SleeperOther(s, e, q);
    } else {
      BusyOther(s, e, q);
    }
  }

  lemma BusyOther(s: Sys, e: Event, q: nat)
    requires Inv(s) && Enabled(s, e) && q < |s.pc| && q != e.p
    requires !s.pc[q].Park? && !(s.pc[q].Asleep? && s.sleeping[q])
    ensures WorkOk(Step(s, e), q)
  {
    hide HolderOk, BeingWoken;
    assert PlaceOk(s, q) && WorkOk(s, q) && PlaceOk(s, e.p) && WorkOk(s, e.p);
    var c := s.pc[q];
    if c.Doze? || c.Drop? {
      assert s.inner[c.l] == To(q);
      assert !HasInner(s.pc[e.p], c.l);
    }
  }

  lemma WorkSelf(s: Sys, e: Event)
    requires Inv(s) && Enabled(s, e)
    ensures WorkOk(Step(s, e), e.p)
  {
    assert PlaceOk(s, e.p) && WorkOk(s, e.p);
  }

  lemma StepInv(s: Sys, e: Event)
    requires Inv(s) && Enabled(s, e)
    ensures Inv(Step(s, e))
  {
    hide PlaceOk, WorkOk, HolderOk, Woken;
    var t := Step(s, e);
    PlaceSelf(s, e);
    WorkSelf(s, e);
    forall q: nat | q < |t.pc| ensures PlaceOk(t, q) && WorkOk(t, q) {
      if q != e.p {
        PlaceOther(s, e, q);
        WorkOther(s, e, q);
      }
    }
    forall l: nat | l < |t.locked| ensures HolderOk(t, l) { StepHolder(s, e, l); }
    StepKnown(s, e);
  }

  lemma StepKnown(s: Sys, e: Event)
    requires Inv(s) && Enabled(s, e)
    ensures var t := Step(s, e);
      && |t.locked| == |s.locked| && Known(t.ptable, |t.pc|)
        && (forall l: nat :: l < |t.inner| ==> Known(t.inner[l], |t.pc|))
      && forall p: nat, l: nat :: p < |t.pc| && p < |t.mine| && l in t.mine[p] ==> l < |t.locked|
  {
    hide WorkOk, HolderOk, Woken;
    assert PlaceOk(s, e.p);
  }

  // ---- runs ----

  ghost predicate Legal(s: Sys, es: seq<Event>)
    requires Inv(s)
    decreases |es|
  {
    es == [] || (Enabled(s, es[0]) && (StepInv(s, es[0]); Legal(Step(s, es[0]), es[1..])))
  }

  ghost function Exec(s: Sys, es: seq<Event>): (t: Sys)
    requires Inv(s) && Legal(s, es)
    ensures Inv(t)
    decreases |es|
  {
    if es == [] then s else StepInv(s, es[0]); Exec(Step(s, es[0]), es[1..])
  }

  /** n processes outside, m sleep locks just initialised. */
  function Start(n: nat, m: nat): Sys {
    Sys(seq(n, p => Out), seq(n, p => false), seq(n, p => {}), seq(m, l => false), seq(m, l => Null),
      seq(m, l => Null), Null)
  }

  lemma StartInv(n: nat, m: nat)
    ensures Inv(Start(n, m))
  {
  }

  ghost predicate History(n: nat, m: nat, es: seq<Event>) {
    StartInv(n, m);
    Legal(Start(n, m), es)
  }

  ghost function After(n: nat, m: nat, es: seq<Event>): (s: Sys)
    requires History(n, m, es)
    ensures Inv(s)
  {
    StartInv(n, m);
    Exec(Start(n, m), es)
  }

  /**
    For any number of processes and locks and any interleaving, kills included: at
    most one process has a sleep lock, the lock is then marked locked with that
    process's pid; and while the inner spinlock is free no process is SLEEPING on
    a sleep lock that nobody has.
   */
  lemma NoLostWakeup(n: nat, m: nat, es: seq<Event>)
    requires History(n, m, es)
    ensures var s := After(n, m, es);
      && Shape(s)
      && (forall p: nat, q: nat, l: nat :: p < |s.pc| && q < |s.pc| && l in s.mine[p] && l in s.mine[q] ==> p == q)
      && (forall p: nat, l: nat :: p < |s.pc| && l < |s.locked| && l in s.mine[p] ==> s.locked[l] && s.pid[l] == To(p))
      && (forall l: nat :: l < |s.locked| && s.locked[l] ==> exists p: nat :: p < |s.pc| && l in s.mine[p])
      && (forall p: nat, l: nat ::
            p < |s.pc| && l < |s.locked| && s.pc[p] == Asleep(l) && s.sleeping[p] && s.inner[l] == Null ==> s.locked[l])
  {
    var s := After(n, m, es);
    forall p: nat, l: nat | p < |s.pc| && l in s.mine[p] ensures l < |s.locked| && s.locked[l] && s.pid[l] == To(p) {
      assert HolderOk(s, l);
    }
    forall p: nat, q: nat, l: nat | p < |s.pc| && q < |s.pc| && l in s.mine[p] && l in s.mine[q] ensures p == q {
      assert s.pid[l] == To(p) && s.pid[l] == To(q);
    }
    forall l: nat | l < |s.locked| && s.locked[l] ensures exists p: nat :: p < |s.pc| && l in s.mine[p] {
      assert HolderOk(s, l) && l in s.mine[s.pid[l].i];
    }
    forall p: nat, l: nat | p < |s.pc| && l < |s.locked| && s.pc[p] == Asleep(l) && s.sleeping[p] && s.inner[l] == Null
      ensures s.locked[l]
    {
      assert WorkOk(s, p) && PlaceOk(s, p);
    }
  }

  // ---- what the calls mean, told from the calls alone ----

  /** The locks p has called acquiresleep on and not yet called releasesleep on. */
  ghost function Asked(es: seq<Event>, p: nat): set<nat>
    decreases |es|
  {
    if es == [] then {}
    else
      var before := Asked(es[..|es|-1], p);
      match es[|es|-1]
      case Acquire(q, l) => if q == p then before + {l} else before
      case Release(q, l) => if q == p then before - {l} else before
      case _ => before
  }

  predicate Acquiring(c: Pc) {
    c.Enter? || c.Check? || c.Doze? || c.Drop? || c.Park? || c.Asleep? || c.Back?
  }

  /** A process has what it asked for, but for the lock of the call it is in. */
  ghost predicate Owns(s: Sys, p: nat, asked: set<nat>)
    requires Shape(s) && p < |s.pc|
  {
    var c := s.pc[p];
    if Acquiring(c) then s.mine[p] + {c.l} == asked
    else if c.Leave? || c.Clear? then c.l in s.mine[p] && s.mine[p] - {c.l} == asked
    else s.mine[p] == asked
  }

  lemma StepOwns(s: Sys, e: Event, p: nat, es: seq<Event>)
    requires Inv(s) && Enabled(s, e) && p < |s.pc| && Owns(s, p, Asked(es, p))
    ensures Shape(Step(s, e)) && |Step(s, e).pc| == |s.pc| && Owns(Step(s, e), p, Asked(es + [e], p))
  {
    hide Woken, PlaceOk, HolderOk, BeingWoken;
    assert (es + [e])[..|es|] == es && (es + [e])[|es|] == e;
    assert WorkOk(s, p);
  }

  lemma {:induction false} RunOwns(s: Sys, es: seq<Event>, p: nat, past: seq<Event>)
    requires Inv(s) && Legal(s, es) && p < |s.pc| && Owns(s, p, Asked(past, p))
    ensures |Exec(s, es).pc| == |s.pc| && Owns(Exec(s, es), p, Asked(past + es, p))
    decreases |es|
  {
    hide Owns, Inv, Enabled, Asked;
    if es == [] {
      assert past + es == past;
    } else {
      StepInv(s, es[0]);
      StepOwns(s, es[0], p, past);
      assert past + es == (past + [es[0]]) + es[1..];
      RunOwns(Step(s, es[0]), es[1..], p, past + [es[0]]);
    }
  }

  /**
    The calls keep their promise, told from the calls alone: a process that is
    outside again has exactly the locks it has called acquiresleep on and not
    called releasesleep on since, so acquiresleep returns only with the lock and
    releasesleep only without it.
   */
  lemma CallsDeliver(n: nat, m: nat, es: seq<Event>, p: nat)
    requires History(n, m, es) && p < n
    ensures var s := After(n, m, es);
      && Shape(s) && |s.pc| == n
      && (s.pc[p] == Out ==> s.mine[p] == Asked(es, p))
      && Asked(es, p) <= s.mine[p] + (if Acquiring(s.pc[p]) then {s.pc[p].l} else {})
  {
    StartInv(n, m);
    assert [] + es == es;
    RunOwns(Start(n, m), es, p, []);
  }

  /** Mutual exclusion: two processes that are both outside never both have called for the same lock and kept it. */
  lemma MutualExclusion(n: nat, m: nat, es: seq<Event>, p: nat, q: nat, l: nat)
    requires History(n, m, es) && p < n && q < n && p != q
    requires l in Asked(es, p) && l in Asked(es, q)
    ensures var s := After(n, m, es);
      && Shape(s) && |s.pc| == n
      && ((Acquiring(s.pc[p]) && s.pc[p].l == l) || (Acquiring(s.pc[q]) && s.pc[q].l == l))
  {
    CallsDeliver(n, m, es, p);
    CallsDeliver(n, m, es, q);
    NoLostWakeup(n, m, es);
  }

  // ---- nobody waits but for a lock that is held ----

  /** Some process inside a call can take its next step. */
  ghost predicate Moves(s: Sys) {
    exists p: nat :: p < |s.pc| && (Enabled(s, Next(p)) || Enabled(s, Resume(p)))
  }

  /** p is outside, or asleep on a lock that is held. */
  ghost predicate Rests(s: Sys, p: nat)
    requires Shape(s) && p < |s.pc|
  {
    s.pc[p] == Out || (s.pc[p].Asleep? && s.sleeping[p] && s.pc[p].l < |s.locked| && s.locked[s.pc[p].l])
  }

  lemma RestsOrMoves(s: Sys, p: nat)
    requires Inv(s) && p < |s.pc| && !Rests(s, p)
    ensures Moves(s)
  {
    hide HolderOk, Moves, Woken;
    assert PlaceOk(s, p) && WorkOk(s, p);
    if s.ptable.To? {
      assert PlaceOk(s, s.ptable.i) && Enabled(s, Next(s.ptable.i));
      MovesBy(s, s.ptable.i);
    } else if s.pc[p].Asleep? && s.sleeping[p] {
      assert BeingWoken(s, s.pc[p].l);
      MovesBy(s, s.inner[s.pc[p].l].i);
    } else if (s.pc[p].Enter? || s.pc[p].Leave?) && s.inner[s.pc[p].l].To? {
      var q := s.inner[s.pc[p].l].i;
      assert Known(s.inner[s.pc[p].l], |s.pc|) && PlaceOk(s, q);
      MovesBy(s, q);
    } else {
      MovesBy(s, p);
    }
  }

  lemma MovesBy(s: Sys, p: nat)
    requires p < |s.pc| && (Enabled(s, Next(p)) || Enabled(s, Resume(p)))
    ensures Moves(s)
  {
  }

  /**
    No deadlock of the protocol's own making: in every reachable state, either a
    process inside a call can take its next step, or every process is outside or
    SLEEPING on a sleep lock that is marked locked, and so has a holder.
   */
  lemma OnlyHeldLocksBlock(n: nat, m: nat, es: seq<Event>)
    requires History(n, m, es)
    ensures var s := After(n, m, es); Shape(s) && (Moves(s) || forall p: nat :: p < |s.pc| ==> Rests(s, p))
  {
    hide Moves, Rests;
    var s := After(n, m, es);
    if !Moves(s) {
      forall p: nat | p < |s.pc| ensures Rests(s, p) {
        if !Rests(s, p) { RestsOrMoves(s, p); }
      }
    }
  }

  /** kill leaves its target awake: whoever is SLEEPING after a kill was so before and is not the target. */
  lemma KillWakes(s: Sys, p: nat, x: nat)
    requires Inv(s) && p < |s.pc| && x < |s.pc| && s.pc[p].Kill? && Enabled(s, Next(p))
    ensures var t := Step(s, Next(p)); |t.sleeping| == |s.pc| && (t.sleeping[x] <==> s.sleeping[x] && x != s.pc[p].q)
  {
    assert PlaceOk(s, p);
  }
}
