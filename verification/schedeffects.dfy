/**
  What each call of the process table does, told from the caller's side: fields
  and elapsed ticks before and after, without the lists it is computed with.
 */
module SchedulerEffects {
  import opened Seqs
  import opened Scheduler

  /** The process whose call the event is. */
  function Runner(t: Table, e: Event): Link {
    match e
    case Sched(c, now) => Null
    case Wake1(ch) => Null
    case Kill(pid) => Null
    case SetPrio(pid, prio) => Null
    case _ => if e.c < |t.cpu| then t.cpu[e.c] else Null
  }

  // ---- fork ----

  /** fork's embryo: a slot that was free, the next pid, and nothing of anybody else touched. */
  lemma ClaimEffect(t: Table, c: nat, np: nat)
    requires Inv(t) && Enabled(t, Claim(c, np))
    ensures var u := Step(t, Claim(c, np)); var x := t.cpu[c].i;
      && Inv(u) && x < NPROC && u.fork == t.fork[x := Claimed(np)] && u.cpu == t.cpu && u.init == t.init
      && u.proc == t.proc[np := t.proc[np].(state := EMBRYO, pid := t.nextpid)] && u.nextpid == t.nextpid + 1
      && forall y :: 0 <= y < NPROC && t.proc[y].state != UNUSED ==> t.proc[y].pid != t.nextpid
  {
    hide Without, On;
    CpuOf(t, c);
    StepInv(t, Claim(c, np));
  }

  /** A fork that fails gives the slot back and changes nothing else. */
  lemma AbandonEffect(t: Table, e: Event)
    requires Inv(t) && Enabled(t, e) && (e.NoStack? || e.CopyFailed?)
    ensures var u := Step(t, e); var x := t.cpu[e.c].i; var np := t.fork[x].np;
      && Inv(u) && x < NPROC && np < NPROC && t.proc[np].state == EMBRYO && u.fork == t.fork[x := NotForking]
      && u.proc == t.proc[np := t.proc[np].(state := UNUSED)] && u.cpu == t.cpu && u.init == t.init
      && u.nextpid == t.nextpid
  {
    hide Without, On;
    CpuOf(t, e.c);
    assert ForkOk(t, t.cpu[e.c].i);
    StepInv(t, e);
  }

  /**
    The one new process np is a child of the caller on CPU c, runnable at the top
    level behind everybody there with a whole slice; it has no children of its own.
   */
  ghost predicate HasChildNow(t: Table, u: Table, c: nat, np: nat) {
    && Shape(t) && Shape(u) && c < NCPU && np < NPROC && t.cpu[c].To? && t.cpu[c].i < NPROC
    && t.proc[np].state == EMBRYO && u.proc[np] == t.proc[np].(state := RUNNABLE, parent := t.cpu[c])
    && u.proc[np].pid > t.proc[t.cpu[c].i].pid && u.proc[np].priority == MAXPRIO && u.proc[np].budget == BUDGET
    && u.q[ReadyQ(MAXPRIO)] == t.q[ReadyQ(MAXPRIO)] + [np] && Children(u, np) == {}
    && (forall y :: 0 <= y < NPROC && y != np ==> u.proc[y] == t.proc[y])
    && u.fork == t.fork[t.cpu[c].i := NotForking] && u.cpu == t.cpu && u.init == t.init && u.nextpid == t.nextpid
  }

  /** fork gives the caller one more child, and changes nothing else. */
  lemma ForkedEffect(t: Table, c: nat)
    requires Inv(t) && Enabled(t, Forked(c))
    ensures var x := t.cpu[c].i;
      Inv(Step(t, Forked(c))) && x < NPROC && HasChildNow(t, Step(t, Forked(c)), c, t.fork[x].np)
  {
    hide Without, On, CpuInv, WaitInv, PidInv;
    CpuOf(t, c);
    var x := t.cpu[c].i;
    assert ForkOk(t, x);
    var np := t.fork[x].np;
    MoveQueues(t, np, t.proc[np].(parent := To(x), state := RUNNABLE));
    StepInv(t, Forked(c));
    forall y | 0 <= y < NPROC ensures t.proc[y].parent != To(np) { assert ParentOk(t, y); }
  }

  // ---- children ----

  /** The processes that have p as parent. */
  ghost function Children(t: Table, p: nat): set<nat> {
    set z: nat | z < |t.proc| && t.proc[z].parent == To(p)
  }

  lemma ChildrenAre(t: Table, p: nat)
    requires Inv(t)
    ensures HasChild(t, p) <==> Children(t, p) != {}
  {
    hide On;
    forall z | 0 <= z < NPROC ensures IsChild(t, z, p) <==> t.proc[z].parent == To(p) { assert ParentOk(t, z); }
    if Children(t, p) != {} {
      var z :| z in Children(t, p);
      assert IsChild(t, z, p);
    }
    if HasChild(t, p) {
      var z :| 0 <= z < NPROC && IsChild(t, z, p);
      assert z in Children(t, p);
    }
  }

  /**
    wait: it answers with a pid exactly when a zombie child is there; that child
    had this pid, its slot is free and clean again, and nothing else has changed.
    It fails, changing nothing, when nobody is its child or it was killed, and
    otherwise goes to sleep on itself, charged for the time it ran.
   */
  lemma WaitEffect(t: Table, c: nat, now: Ticks) returns (z: nat)
    requires Inv(t) && Enabled(t, Wait(c, now))
    ensures var p := t.cpu[c].i;
      && p < NPROC && z < NPROC
      && var (u, r) := WaitStep(t, c, p, now);
      && Inv(u) && u == Step(t, Wait(c, now)) && u.init == t.init
      && (r.Reaped? <==> HasZombie(t, p))
      && (r == Failed <==> !HasZombie(t, p) && (Children(t, p) == {} || t.proc[p].killed))
      && (r.Reaped? ==>
            && t.proc[z].state == ZOMBIE && t.proc[z].parent == To(p) && r.pid == t.proc[z].pid
            && u.proc[z].state == UNUSED && u.proc[z].pid == 0 && u.proc[z].parent == Null && !u.proc[z].killed
            && (forall y :: 0 <= y < NPROC && y != z ==> u.proc[y] == t.proc[y])
            && SameRest(t, u))
      && (r == Failed ==> u == t)
      && (r == Blocked ==> FallsAsleep(t, u, c, OnProc(p), now))
  {
    hide Without, On, Facts, SliceUsed, SleepStep;
    SleepSlice(t, c, OnProc(t.cpu[c].i), now);
    CpuOf(t, c);
    var p := t.cpu[c].i;
    StepInv(t, Wait(c, now));
    ZombieFound(t, p);
    ChildrenAre(t, p);
    var l := FirstChild(t.proc, t.q[StateQ(ZOMBIE)], p);
    z := if l.To? then l.i else 0;
  }

  // ---- yield, sleep ----

  /** What a slice becomes when its process has run for k ticks. */
  predicate SliceUsed(a: Proc, b: Proc, k: nat) {
    if k < a.budget then b.priority == a.priority && b.budget == a.budget - k
    else b.priority == (if a.priority == 0 then 0 else a.priority - 1) && b.budget == BUDGET
  }

  /** The process on CPU c goes to sleep on ch: its slice is charged, everything else is kept. */
  ghost predicate FallsAsleep(t: Table, u: Table, c: nat, ch: Chan, now: Ticks)
    requires Inv(t) && Runs(t, c)
  {
    var p := t.cpu[c].i;
    && p < NPROC && |u.proc| == NPROC && SliceUsed(t.proc[p], u.proc[p], U32(now - t.proc[p].ticksIn))
    && u.proc[p]
      == t.proc[p].(priority := u.proc[p].priority, budget := u.proc[p].budget, state := SLEEPING, chan := ch)
    && (forall y :: 0 <= y < NPROC && y != p ==> u.proc[y] == t.proc[y])
    && u.cpu == t.cpu[c := Null] && u.fork == t.fork && u.init == t.init && u.nextpid == t.nextpid
  }

  lemma SleepSlice(t: Table, c: nat, ch: Chan, now: Ticks)
    requires Inv(t) && Runs(t, c) && SlicesOk(t, c, now)
    ensures t.cpu[c].i < NPROC && FallsAsleep(t, SleepStep(t, c, t.cpu[c].i, ch, now), c, ch, now)
  {
    hide Without, On;
    CpuOf(t, c);
    assert ProcOk(t, t.cpu[c].i);
    ChargedFreshIff(t.proc[t.cpu[c].i], now);
  }

  /**
    The process on CPU c, and nobody else, leaves it; the ticks since it was
    dispatched, modulo 2^32, come off its budget, and if they use it up it drops one
    level, not below 0, with a new budget; it is last in the ready queue of its level.
   */
  ghost predicate GivesUpCpu(t: Table, u: Table, c: nat, now: Ticks) {
    && Shape(t) && Shape(u) && c < NCPU && t.cpu[c].To? && t.cpu[c].i < NPROC
    && var p := t.cpu[c].i;
    && SliceUsed(t.proc[p], u.proc[p], U32(now - t.proc[p].ticksIn))
    && u.proc[p] == t.proc[p].(priority := u.proc[p].priority, budget := u.proc[p].budget, state := RUNNABLE)
    && u.q[ReadyQ(u.proc[p].priority)] == t.q[ReadyQ(u.proc[p].priority)] + [p]
    && (forall y :: 0 <= y < NPROC && y != p ==> u.proc[y] == t.proc[y])
    && u.cpu == t.cpu[c := Null] && u.fork == t.fork && u.init == t.init && u.nextpid == t.nextpid
  }

  lemma YieldEffect(t: Table, c: nat, now: Ticks)
    requires Inv(t) && Enabled(t, Yield(c, now))
    ensures Inv(Step(t, Yield(c, now))) && GivesUpCpu(t, Step(t, Yield(c, now)), c, now)
  {
    hide Without, On, CpuInv, PidInv, TreeInv, ForkInv, WaitInv;
    CpuOf(t, c);
    var p := t.cpu[c].i;
    StepInv(t, Yield(c, now));
    assert ProcOk(t, p);
    ChargedFreshIff(t.proc[p], now);
    MoveQueues(t, p, Charged(t.proc[p], now).(state := RUNNABLE));
  }

  /** sleep: the same charge; the caller is asleep on the channel. */
  lemma SleepEffect(t: Table, c: nat, ch: Chan, now: Ticks)
    requires Inv(t) && Enabled(t, Sleep(c, ch, now))
    ensures Inv(Step(t, Sleep(c, ch, now))) && FallsAsleep(t, Step(t, Sleep(c, ch, now)), c, ch, now)
  {
    hide Without, On, FallsAsleep, SleepStep;
    StepInv(t, Sleep(c, ch, now));
    SleepSlice(t, c, ch, now);
  }

  // ---- kill, setpriority ----

  lemma OwnerOf(t: Table, pid: int, x: nat)
    requires Inv(t) && x < NPROC && t.proc[x].state != UNUSED
    ensures Owner(t, pid, NPROC) == To(x) <==> t.proc[x].pid == pid
  {
    hide On, CpuInv, TreeInv, ForkInv, WaitInv;
    var l := Owner(t, pid, NPROC);
    assert l.To? && l.i < x ==> t.proc[l.i].pid != t.proc[x].pid;
    assert l.To? && x < l.i ==> t.proc[x].pid != t.proc[l.i].pid;
  }

  /** kill: the process with that pid, in any state, is marked; asleep, it becomes runnable; nobody else changes. */
  lemma KillEffect(t: Table, pid: int, x: nat)
    requires Inv(t) && x < NPROC
    ensures var u := Step(t, Kill(pid)); var r := t.proc[x];
      && Inv(u) && SameRest(t, u)
      && u.proc[x] == (if r.state != UNUSED && r.pid == pid
                       then r.(killed := true, state := if r.state == SLEEPING then RUNNABLE else r.state) else r)
      && (r.state == SLEEPING && r.pid == pid ==> u.q[ReadyQ(r.priority)] == t.q[ReadyQ(r.priority)] + [x])
  {
    hide Without, On, Owner, Facts;
    StepInv(t, Kill(pid));
    var l := Owner(t, pid, NPROC);
    if t.proc[x].state != UNUSED { OwnerOf(t, pid, x); }
    if l == To(x) && t.proc[x].state == SLEEPING {
      var r := t.proc[x].(killed := true);
      var t1 := t.(proc := t.proc[x := r]);
      assert Partition(t1);
      MoveQueues(t1, x, r.(state := RUNNABLE));
    }
  }

  /** setpriority: a live process with that pid gets the priority, and if it is a new one, a whole slice. */
  lemma SetPrioEffect(t: Table, pid: int, prio: int, x: nat)
    requires Inv(t) && x < NPROC
    ensures var u := Step(t, SetPrio(pid, prio)); var r := t.proc[x];
      && Inv(u) && SameRest(t, u)
      && u.proc[x] == (if Live(r.state) && r.pid == pid && pid <= 32767 && 0 <= prio <= MAXPRIO && r.priority != prio
                       then r.(priority := prio, budget := BUDGET) else r)
      && (u.proc[x] != r && r.state == RUNNABLE ==> u.q[ReadyQ(prio)] == t.q[ReadyQ(prio)] + [x])
  {
    hide Without, On, Owner, Facts;
    StepInv(t, SetPrio(pid, prio));
    if t.proc[x].state != UNUSED { OwnerOf(t, pid, x); }
    if SetApplies(t, pid, prio) {
      var p := Owner(t, pid, NPROC).i;
      MoveQueues(t, p, t.proc[p].(priority := prio, budget := BUDGET));
    }
  }

  // ---- scheduler ----

  /** What a promotion does to a slice: one level up and a whole budget; at the top only that, and not if RUNNABLE. */
  predicate SliceRaised(a: Proc, b: Proc) {
    if Live(a.state) && a.priority < MAXPRIO then b.priority == a.priority + 1 && b.budget == BUDGET
    else b.priority == a.priority && b.budget == if a.state == SLEEPING || a.state == RUNNING then BUDGET else a.budget
  }

  /** x goes behind p: at a lower level, or at the same after a promotion from below, or in the same queue. */
  predicate Behind(t: Table, u: Table, x: nat, p: nat)
    requires x < |t.proc| && p < |t.proc| && |u.proc| == |t.proc|
  {
    || u.proc[x].priority < u.proc[p].priority
    || (u.proc[x].priority == u.proc[p].priority && t.proc[x].priority <= t.proc[p].priority)
  }

  lemma ReadyEmpty(t: Table, j: int, x: nat)
    requires Partition(t) && x < NPROC && t.proc[x].state == RUNNABLE && -1 <= j <= MAXPRIO
    requires forall i :: j < i <= MAXPRIO ==> t.q[ReadyQ(i)] == []
    ensures t.proc[x].priority <= j
  {
    assert On(t.q, Home(t.proc[x]), x);
  }

  lemma DispatchEffect(t: Table, c: nat, now: Ticks)
    requires Inv(t) && c < NCPU && t.cpu[c] == Null
    ensures var u := Dispatch(t, c, now); var l := u.cpu[c];
      && Inv(u) && u.cpu == t.cpu[c := l] && u.fork == t.fork && u.nextpid == t.nextpid && u.init == t.init
      && u.promoteAt == t.promoteAt
      && (l == Null ==> u == t && forall x :: 0 <= x < NPROC ==> t.proc[x].state != RUNNABLE)
      && (l.To? ==>
            && l.i < NPROC && t.proc[l.i].state == RUNNABLE && t.q[ReadyQ(t.proc[l.i].priority)] != []
            && t.q[ReadyQ(t.proc[l.i].priority)][0] == l.i
            && u.proc == t.proc[l.i := t.proc[l.i].(state := RUNNING, ticksIn := now, chan := NoChan)]
            && forall x :: 0 <= x < NPROC && t.proc[x].state == RUNNABLE ==>
                 t.proc[x].priority <= t.proc[l.i].priority)
  {
    hide On, Without, Facts;
    DispatchFacts(t, c, now);
    var j := TopReady(t.q, MAXPRIO);
    if j >= 0 { QueueKnown(t, ReadyQ(j)); }
    forall x | 0 <= x < NPROC && t.proc[x].state == RUNNABLE ensures t.proc[x].priority <= j { ReadyEmpty(t, j, x); }
  }

  /** What becomes of process x when scheduler promotes. */
  lemma PromoteEffect(t: Table, now: Ticks, x: nat)
    requires Inv(t) && x < NPROC
    ensures var u := Promote(t, now);
      && Inv(u) && SliceRaised(t.proc[x], u.proc[x])
      && u.proc[x] == t.proc[x].(priority := u.proc[x].priority, budget := u.proc[x].budget)
  {
    hide On, Facts;
    PromoteFacts(t, now);
  }

  /** The head of a queue after a promotion was the head of its queue before. */
  lemma PromotedHead(t: Table, now: Ticks, p: nat)
    requires Inv(t) && p < NPROC && t.proc[p].state == RUNNABLE
    requires var u := Promote(t, now);
      Partition(u) && u.proc[p].priority <= MAXPRIO
        && u.q[ReadyQ(u.proc[p].priority)] != [] && u.q[ReadyQ(u.proc[p].priority)][0] == p
    ensures t.q[ReadyQ(t.proc[p].priority)] != [] && t.q[ReadyQ(t.proc[p].priority)][0] == p
    ensures var u := Promote(t, now);
      forall x :: 0 <= x < NPROC && t.proc[x].state == RUNNABLE && u.proc[x].priority == u.proc[p].priority ==>
        t.proc[x].priority <= t.proc[p].priority
  {
    hide Facts;
    var u := Promote(t, now);
    assert On(t.q, ReadyQ(t.proc[p].priority), p);
    assert u.q[ReadyQ(u.proc[p].priority)] == ShiftedReady(t.q, ReadyQ(u.proc[p].priority));
    var top := t.q[ReadyQ(MAXPRIO)];
    if MAXPRIO > 0 && u.proc[p].priority == MAXPRIO {
      assert top != [] ==> (top + t.q[ReadyQ(MAXPRIO - 1)])[0] == top[0];
      assert top != [] ==> On(t.q, ReadyQ(MAXPRIO), top[0]);
      assert top == [] ==> top + t.q[ReadyQ(MAXPRIO - 1)] == t.q[ReadyQ(MAXPRIO - 1)];
    }
    forall x | 0 <= x < NPROC && t.proc[x].state == RUNNABLE && u.proc[x].priority == u.proc[p].priority
      ensures t.proc[x].priority <= t.proc[p].priority
    {
      assert On(t.q, ReadyQ(t.proc[x].priority), x);
    }
  }

  /**
    scheduler: when the time has come every live process is promoted; then the CPU
    gets a runnable process, if there is one, that was first in its queue and that
    no runnable process is above; its clock starts, and it forgets what it slept on.
   */
  lemma SchedEffect(t: Table, c: nat, now: Ticks)
    requires Inv(t) && Enabled(t, Sched(c, now))
    ensures var u := Step(t, Sched(c, now)); var l := u.cpu[c];
      && Inv(u) && u.cpu == t.cpu[c := l] && u.fork == t.fork && u.nextpid == t.nextpid && u.init == t.init
      && u.promoteAt == (if now >= t.promoteAt then U32(now + TICKS_TO_PROMOTE) else t.promoteAt)
      && (l == Null ==> forall x :: 0 <= x < NPROC ==> t.proc[x].state != RUNNABLE)
      && (l.To? ==>
            && l.i < NPROC && t.proc[l.i].state == RUNNABLE && t.q[ReadyQ(t.proc[l.i].priority)] != []
            && t.q[ReadyQ(t.proc[l.i].priority)][0] == l.i
            && forall x :: 0 <= x < NPROC && t.proc[x].state == RUNNABLE ==> Behind(t, u, x, l.i))
      && (forall x: nat :: x < NPROC ==> SchedRel(t, u, x, l == To(x), now))
  {
    hide On, Without, Facts, Dispatch, Promote;
    if now >= t.promoteAt {
      var v := Promote(t, now);
      PromoteFacts(t, now);
      PromoteRest(t, now);
      forall x: nat | x < NPROC
        ensures SliceRaised(t.proc[x], v.proc[x])
        ensures v.proc[x] == t.proc[x].(priority := v.proc[x].priority, budget := v.proc[x].budget)
      {
        PromoteEffect(t, now, x);
      }
      DispatchEffect(v, c, now);
      var l := Dispatch(v, c, now).cpu[c];
      if l.To? { PromotedHead(t, now, l.i); }
    } else {
      DispatchEffect(t, c, now);
    }
  }

  lemma PromoteRest(t: Table, now: Ticks)
    requires Inv(t)
    ensures var u := Promote(t, now);
      && u.cpu == t.cpu && u.fork == t.fork && u.nextpid == t.nextpid && u.init == t.init
      && u.promoteAt == U32(now + TICKS_TO_PROMOTE)
  {
  }

  /** One process over a pass of scheduler. */
  ghost predicate SchedRel(t: Table, u: Table, x: nat, chosen: bool, now: Ticks)
    requires Shape(t) && Shape(u) && x < NPROC
  {
    var a, b := t.proc[x], u.proc[x];
    && (if now >= t.promoteAt then SliceRaised(a, b) else b.priority == a.priority && b.budget == a.budget)
    && b.pid == a.pid && b.parent == a.parent && b.killed == a.killed
    && (if chosen then b.state == RUNNING && b.ticksIn == now && b.chan == NoChan
        else b.state == a.state && b.ticksIn == a.ticksIn && b.chan == a.chan)
  }
}
