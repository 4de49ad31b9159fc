/** Whole runs of the scheduler: what holds in every reachable state, and bounded waiting. */
module SchedulerRuns {
  import opened Seqs
  import opened Scheduler

  // ---- runs ----

  ghost predicate Legal(t: Table, es: seq<Event>)
    requires Inv(t)
    decreases |es|
  {
    es == [] || (Enabled(t, es[0]) && (StepInv(t, es[0]); Legal(Step(t, es[0]), es[1..])))
  }

  ghost function Exec(t: Table, es: seq<Event>): (u: Table)
    requires Inv(t) && Legal(t, es)
    ensures Inv(u)
    decreases |es|
  {
    if es == [] then t else StepInv(t, es[0]); Exec(Step(t, es[0]), es[1..])
  }

  /** The table as userinit leaves it: init is process 0, pid 1, first in the top ready queue. */
  ghost function Booted(now: Ticks): Table {
    var idle := Proc(UNUSED, 0, Null, NoChan, false, 0, 0, 0);
    Table(seq(NPROC, p => if p == 0 then idle.(state := RUNNABLE, pid := 1, priority := MAXPRIO, budget := BUDGET)
      else idle),
          seq(NQ, k => BootQueue(k)),
          seq(NCPU, c => Null), seq(NPROC, p => NotForking), 2, 0, U32(now + TICKS_TO_PROMOTE))
  }

  function BootQueue(k: int): seq<nat> {
    if k == StateQ(UNUSED) then seq(NPROC - 1, i => i + 1) else if k == ReadyQ(MAXPRIO) then [0] else []
  }

  lemma BootedPartition(now: Ticks)
    ensures Partition(Booted(now))
  {
    var t := Booted(now);
    assert forall k :: 0 <= k < NQ ==> t.q[k] == BootQueue(k);
    var free := BootQueue(StateQ(UNUSED));
    assert forall i :: 0 <= i < NPROC - 1 ==> free[i] == i + 1;
    forall p: nat ensures p in free <==> 1 <= p < NPROC {
      if 1 <= p < NPROC { assert free[p-1] == p; }
    }
    forall k, p: nat ensures On(t.q, k, p) <==> p < NPROC && Home(t.proc[p]) == k {
      assert 0 <= k < NQ ==> t.q[k] == BootQueue(k);
    }
    forall k | 0 <= k < NQ ensures NoDup(t.q[k]) {}
  }

  lemma BootedInv(now: Ticks)
    ensures Inv(Booted(now))
  {
    hide On, NoDup;
    BootedPartition(now);
    var t := Booted(now);
    forall p | 0 <= p < NPROC ensures ParentOk(t, p) && ForkOk(t, p) && ProcOk(t, p) {}
    assert CpuInv(t) && PidInv(t) && TreeInv(t) && ForkInv(t) && WaitInv(t);
  }

  /** es is a possible sequence of critical sections after boot. */
  ghost predicate History(now: Ticks, es: seq<Event>) {
    BootedInv(now);
    Legal(Booted(now), es)
  }

  ghost function After(now: Ticks, es: seq<Event>): (t: Table)
    requires History(now, es)
    ensures Inv(t)
  {
    BootedInv(now);
    Exec(Booted(now), es)
  }

  /**
    From userinit on: every process is on exactly one queue, exactly once, and it
    is the list of its state or, if runnable, the ready queue of its priority; the
    RUNNABLE list itself stays empty; and the RUNNING processes are exactly the
    current ones of the CPUs, one CPU each.
   */
  lemma SchedulerPartition(now: Ticks, es: seq<Event>)
    requires History(now, es)
    ensures var t := After(now, es);
      && Shape(t) && t.q[StateQ(RUNNABLE)] == []
      && (forall p: nat, k :: p < NPROC && 0 <= k < NQ ==> (On(t.q, k, p) <==> Home(t.proc[p]) == k))
      && (forall k :: 0 <= k < NQ ==> NoDup(t.q[k]) && Known(t.q[k]))
      && (forall p: nat :: p < NPROC ==> (t.proc[p].state == RUNNING <==> To(p) in t.cpu))
      && (forall c, d :: 0 <= c < d < NCPU && t.cpu[c].To? ==> t.cpu[c] != t.cpu[d])
  {
    var t := After(now, es);
    forall k | 0 <= k < NQ ensures Known(t.q[k]) { QueueKnown(t, k); }
    if t.q[StateQ(RUNNABLE)] != [] { assert On(t.q, StateQ(RUNNABLE), t.q[StateQ(RUNNABLE)][0]); }
    assert forall p: nat :: p < NPROC ==> On(t.q, Home(t.proc[p]), p);
  }

  /** Scheduled processes keep a time slice between 1 and BUDGET and a legal priority. */
  lemma SlicesStayFresh(now: Ticks, es: seq<Event>, p: nat)
    requires History(now, es) && p < NPROC
    ensures var t := After(now, es);
      Shape(t) && t.proc[p].priority <= MAXPRIO && (Live(t.proc[p].state) ==> 1 <= t.proc[p].budget <= BUDGET)
  {
    assert ProcOk(After(now, es), p);
  }

  // ---- exit and wait ----

  /**
    In every reachable state a process asleep in wait has no zombie child; and a
    pass of wait reaps exactly when there is a zombie child, and fails, for a
    caller that was not killed, exactly when nobody has it as parent.
   */
  lemma ExitWaitProtocol(now: Ticks, es: seq<Event>, c: nat, at: Ticks)
    requires History(now, es) && Enabled(After(now, es), Wait(c, at))
    ensures var t := After(now, es); var p := t.cpu[c].i;
      && (forall x: nat :: x < NPROC && t.proc[x].state == SLEEPING && t.proc[x].chan == OnProc(x) ==> !HasZombie(t, x))
      && var (u, r) := WaitStep(t, c, p, at);
      && (r.Reaped? <==> HasZombie(t, p))
      && (!t.proc[p].killed ==> (r.Failed? <==> !HasChild(t, p)))
      && (t.proc[p].killed ==> !r.Blocked?)
  {
    var t := After(now, es);
    CpuOf(t, c);
    var p := t.cpu[c].i;
    ZombieFound(t, p);
    forall x: nat | x < NPROC && t.proc[x].state == SLEEPING && t.proc[x].chan == OnProc(x) ensures !HasZombie(t, x) {
      assert forall z :: 0 <= z < NPROC ==> !(t.proc[z].state == ZOMBIE && t.proc[z].parent == To(x));
    }
    if HasZombie(t, p) {
      var z :| 0 <= z < NPROC && IsChild(t, z, p) && t.proc[z].state == ZOMBIE;
    }
  }

  // ---- the process tree ----

  /** k steps up the parent links. */
  ghost function Ancestor(t: Table, p: nat, k: nat): Link
    decreases k
  {
    if k == 0 then To(p)
    else if p < |t.proc| && t.proc[p].parent.To? then Ancestor(t, t.proc[p].parent.i, k - 1)
    else Null
  }

  ghost predicate InTree(t: Table, p: nat) {
    p < |t.proc| && (Live(t.proc[p].state) || t.proc[p].state == ZOMBIE)
  }

  lemma {:induction false} AncestorsAreOlder(t: Table, p: nat, k: nat)
    requires Inv(t) && InTree(t, p) && k > 0 && Ancestor(t, p, k).To?
    ensures var a := Ancestor(t, p, k).i;
      a < NPROC && Live(t.proc[a].state) && t.proc[a].pid < t.proc[p].pid
    decreases k
  {
    assert ParentOk(t, p);
    var q := t.proc[p].parent.i;
    assert ParentOk(t, q);
    if k > 1 { AncestorsAreOlder(t, q, k - 1); }
  }

  lemma {:induction false} RootIsInit(t: Table, p: nat) returns (k: nat)
    requires Inv(t) && InTree(t, p)
    ensures Ancestor(t, p, k) == To(t.init)
    decreases t.proc[p].pid
  {
    if p == t.init {
      k := 0;
    } else {
      assert ParentOk(t, p);
      var n := RootIsInit(t, t.proc[p].parent.i);
      k := n + 1;
    }
  }

  /**
    Before pids wrap: pids in use are distinct; every parent is alive and older
    than its child, so an exited process is never anybody's parent, nobody is its
    own ancestor, and following parents always ends at init.
   */
  lemma ProcessTree(now: Ticks, es: seq<Event>, p: nat)
    requires History(now, es) && p < NPROC
    ensures var t := After(now, es);
      && Shape(t)
      && (forall r :: 0 <= r < NPROC && r != p && t.proc[p].state != UNUSED && t.proc[r].state != UNUSED
            ==> t.proc[p].pid != t.proc[r].pid)
      && (t.proc[p].parent.To? ==> t.proc[p].parent.i < NPROC && Live(t.proc[t.proc[p].parent.i].state))
      && (InTree(t, p) ==>
            && (forall k: nat :: k > 0 ==> Ancestor(t, p, k) != To(p))
            && exists k: nat :: Ancestor(t, p, k) == To(t.init))
  {
    var t := After(now, es);
    assert ParentOk(t, p);
    if InTree(t, p) {
      forall k: nat | k > 0 ensures Ancestor(t, p, k) != To(p) {
        if Ancestor(t, p, k).To? { AncestorsAreOlder(t, p, k); }
      }
      var k := RootIsInit(t, p);
    }
  }

  // ---- bounded waiting ----

  /** No setpriority call names p's pid. */
  ghost predicate LeavesAlone(e: Event, pid: nat) {
    e.SetPrio? ==> e.pid != pid
  }

  ghost predicate Promotes(t: Table, e: Event) {
    e.Sched? && e.now >= t.promoteAt
  }

  function RaisedBy(priority: nat, n: nat): nat {
    if priority + n < MAXPRIO then priority + n else MAXPRIO
  }

  /** p is number k in the top ready queue. */
  ghost predicate AtTop(t: Table, p: nat, k: nat)
    requires Partition(t)
  {
    p < NPROC && k < |t.q[ReadyQ(MAXPRIO)]| && t.q[ReadyQ(MAXPRIO)][k] == p
  }

  lemma AtTopIs(t: Table, p: nat, k: nat)
    requires Partition(t) && AtTop(t, p, k)
    ensures t.proc[p].state == RUNNABLE && t.proc[p].priority == MAXPRIO
  {
    QueueKnown(t, ReadyQ(MAXPRIO));
  }

  /** Moving another process leaves p where it is or one place further on. */
  lemma MoveAtTop(t: Table, x: nat, r: Proc, p: nat, k: nat)
    requires Partition(t) && x < NPROC && r.priority <= MAXPRIO && AtTop(t, p, k) && x != p
    ensures Partition(Move(t, x, r))
    ensures AtTop(Move(t, x, r), p, k) || (k > 0 && AtTop(Move(t, x, r), p, k - 1))
    ensures t.q[ReadyQ(MAXPRIO)][0] == x && Home(r) != ReadyQ(MAXPRIO) ==> k > 0 && AtTop(Move(t, x, r), p, k - 1)
  {
    hide On;
    MovePartition(t, x, r);
    QueueKnown(t, ReadyQ(MAXPRIO));
    var top := t.q[ReadyQ(MAXPRIO)];
    if Home(t.proc[x]) == ReadyQ(MAXPRIO) {
      WithoutShifts(top, x, k);
    }
  }

  lemma WithoutShifts(s: seq<nat>, x: nat, k: nat)
    requires k < |s| && s[k] != x
    ensures (k < |Without(s, x)| && Without(s, x)[k] == s[k])
      || (0 < k <= |Without(s, x)| && Without(s, x)[k-1] == s[k])
    ensures s[0] == x ==> 0 < k <= |Without(s, x)| && Without(s, x)[k-1] == s[k]
    decreases |s|
  {
    if s[0] != x && k > 0 { WithoutShifts(s[1..], x, k - 1); }
  }

  lemma GrowAtTop(t: Table, u: Table, p: nat, k: nat)
    requires Partition(t) && Partition(u) && AtTop(t, p, k) && t.q[ReadyQ(MAXPRIO)] <= u.q[ReadyQ(MAXPRIO)]
    ensures AtTop(u, p, k)
  {
  }

  lemma DispatchAtTop(t: Table, c: nat, now: Ticks, p: nat, k: nat)
    requires Inv(t) && c < NCPU && t.cpu[c] == Null && AtTop(t, p, k)
    ensures var u := Dispatch(t, c, now);
      && Inv(u)
      && (k == 0 ==> u.proc[p].state == RUNNING && OnCpu(u, c, p))
      && (k > 0 ==> AtTop(u, p, k - 1))
  {
    hide On, Without, Facts;
    DispatchFacts(t, c, now);
    QueueKnown(t, ReadyQ(MAXPRIO));
    var top := t.q[ReadyQ(MAXPRIO)];
    assert TopReady(t.q, MAXPRIO) == MAXPRIO;
    if k > 0 {
      assert NoDup(top);
      MoveAtTop(t, top[0], t.proc[top[0]].(state := RUNNING, ticksIn := now, chan := NoChan), p, k);
    }
  }

  lemma SchedAtTop(t: Table, c: nat, now: Ticks, p: nat, k: nat)
    requires Inv(t) && c < NCPU && t.cpu[c] == Null && AtTop(t, p, k)
    ensures var u := SchedStep(t, c, now);
      && Inv(u)
      && (k == 0 ==> u.proc[p].state == RUNNING && OnCpu(u, c, p))
      && (k > 0 ==> AtTop(u, p, k - 1))
  {
    hide On, Without, Facts, Dispatch;
    if now >= t.promoteAt {
      PromoteFacts(t, now);
      var u := Promote(t, now);
      assert u.q[ReadyQ(MAXPRIO)] == ShiftedReady(t.q, ReadyQ(MAXPRIO));
      GrowAtTop(t, u, p, k);
      DispatchAtTop(u, c, now, p, k);
    } else {
      DispatchAtTop(t, c, now, p, k);
    }
  }

  lemma ExitAtTop(t: Table, c: nat, p: nat, k: nat)
    requires Inv(t) && Enabled(t, Exit(c)) && AtTop(t, p, k)
    ensures Inv(Step(t, Exit(c))) && AtTop(Step(t, Exit(c)), p, k)
  {
    hide On, Without, Facts, Wakeup;
    StepInv(t, Exit(c));
    CpuOf(t, c);
    AtTopIs(t, p, k);
    var x := t.cpu[c].i;
    var ch := ChanOf(t.proc[x].parent);
    WakeupEffect(t, ch);
    var t1 := Wakeup(t, ch);
    ReparentPartition(t1, x);
    var t2 := Reparent(t1, x);
    WakeupEffect(t2, OnProc(t.init));
    var t3 := if HasZombie(t1, x) then Wakeup(t2, OnProc(t.init)) else t2;
    MoveQueues(t3, x, t3.proc[x].(state := ZOMBIE));
  }

  /** One event, p in the top queue at place k: it is never moved back, and every dispatch moves it on. */
  lemma StepAtTop(t: Table, e: Event, p: nat, k: nat)
    requires Inv(t) && Enabled(t, e) && AtTop(t, p, k) && LeavesAlone(e, t.proc[p].pid)
    ensures Inv(Step(t, e))
    ensures var u := Step(t, e);
      if e.Sched? then (if k == 0 then u.proc[p].state == RUNNING && OnCpu(u, e.c, p) else AtTop(u, p, k - 1))
      else AtTop(u, p, k) || (k > 0 && AtTop(u, p, k - 1))
  {
    hide On, Without, Facts, Wakeup, Dispatch, ExitStep, Owner, Charged;
    StepInv(t, e);
    AtTopIs(t, p, k);
    match e {
      case Claim(c, np) => CpuOf(t, c); MoveAtTop(t, np, t.proc[np].(state := EMBRYO, pid := t.nextpid), p, k);
      case NoStack(c) => ForkAtTop(t, c, p, k);
      case SetUp(c) => ForkingOk(t, c);
      case CopyFailed(c) => ForkAtTop(t, c, p, k);
      case Forked(c) => ForkAtTop(t, c, p, k);
      case Exit(c) => ExitAtTop(t, c, p, k);
      case Wait(c, now) => WaitAtTop(t, c, now, p, k);
      case Sched(c, now) => SchedAtTop(t, c, now, p, k);
      case Yield(c, now) => LeaveAtTop(t, c, NoChan, now, p, k);
      case Sleep(c, ch, now) => LeaveAtTop(t, c, ch, now, p, k);
      case Wake1(ch) => WakeupEffect(t, ch);
      case Kill(pid) => KillAtTop(t, pid, p, k);
      case SetPrio(pid, prio) =>
        if SetApplies(t, pid, prio) {
          var x := Owner(t, pid, NPROC).i;
          MoveAtTop(t, x, t.proc[x].(priority := prio, budget := BUDGET), p, k);
        }
    }
  }

  lemma ForkAtTop(t: Table, c: nat, p: nat, k: nat)
    requires Inv(t) && Runs(t, c) && t.fork[t.cpu[c].i] != NotForking && AtTop(t, p, k)
    ensures var x := t.cpu[c].i; var np := t.fork[x].np;
      && x < NPROC && np < NPROC
      && Partition(Abandon(t, x, np))
        && (AtTop(Abandon(t, x, np), p, k) || (k > 0 && AtTop(Abandon(t, x, np), p, k - 1)))
      && (t.fork[x].Built? ==>
            && Partition(Publish(t, x, np))
            && (AtTop(Publish(t, x, np), p, k) || (k > 0 && AtTop(Publish(t, x, np), p, k - 1))))
  {
    hide On, Without;
    CpuOf(t, c);
    AtTopIs(t, p, k);
    var x := t.cpu[c].i;
    assert ForkOk(t, x);
    var np := t.fork[x].np;
    MoveAtTop(t, np, t.proc[np].(state := UNUSED), p, k);
    MoveAtTop(t, np, t.proc[np].(parent := To(x), state := RUNNABLE), p, k);
  }

  lemma LeaveAtTop(t: Table, c: nat, ch: Chan, now: Ticks, p: nat, k: nat)
    requires Inv(t) && Runs(t, c) && AtTop(t, p, k)
    ensures var x := t.cpu[c].i;
      && x < NPROC
      && (var u := SleepStep(t, c, x, ch, now); Partition(u) && (AtTop(u, p, k) || (k > 0 && AtTop(u, p, k - 1))))
      && (var u := YieldStep(t, c, x, now); Partition(u) && (AtTop(u, p, k) || (k > 0 && AtTop(u, p, k - 1))))
  {
    hide On, Without, Facts;
    CpuOf(t, c);
    AtTopIs(t, p, k);
    var x := t.cpu[c].i;
    SleepPartition(t, c, x, ch, now);
    MoveAtTop(t, x, Charged(t.proc[x], now).(chan := ch, state := SLEEPING), p, k);
    MoveAtTop(t, x, Charged(t.proc[x], now).(state := RUNNABLE), p, k);
  }

  lemma WaitAtTop(t: Table, c: nat, now: Ticks, p: nat, k: nat)
    requires Inv(t) && Enabled(t, Wait(c, now)) && AtTop(t, p, k)
    ensures var u := WaitStep(t, c, t.cpu[c].i, now).0;
      Partition(u) && (AtTop(u, p, k) || (k > 0 && AtTop(u, p, k - 1)))
  {
    hide On, Without, Facts, Charged, Move;
    CpuOf(t, c);
    AtTopIs(t, p, k);
    var x := t.cpu[c].i;
    ZombieFound(t, x);
    var z := FirstChild(t.proc, t.q[StateQ(ZOMBIE)], x);
    if z.To? {
      MoveAtTop(t, z.i, Reap(t.proc[z.i]), p, k);
    } else {
      LeaveAtTop(t, c, OnProc(x), now, p, k);
    }
  }

  lemma KillAtTop(t: Table, pid: int, p: nat, k: nat)
    requires Inv(t) && AtTop(t, p, k)
    ensures Inv(KillStep(t, pid)) && AtTop(KillStep(t, pid), p, k)
  {
    hide On, Without, Facts, Owner;
    KillFacts(t, pid);
    var l := Owner(t, pid, NPROC);
    AtTopIs(t, p, k);
    if l.To? && t.proc[l.i].state == SLEEPING {
      var r := t.proc[l.i].(killed := true);
      var t1 := t.(proc := t.proc[l.i := r]);
      assert Partition(t1);
      MoveQueues(t1, l.i, r.(state := RUNNABLE));
    }
  }

  /** A runnable process stays runnable until scheduler picks it; only promotion raises it. */
  lemma StepRunnable(t: Table, e: Event, p: nat)
    requires Inv(t) && Enabled(t, e) && p < NPROC && t.proc[p].state == RUNNABLE && LeavesAlone(e, t.proc[p].pid)
    ensures Inv(Step(t, e))
    ensures var r := Step(t, e).proc[p];
      && r.pid == t.proc[p].pid
      && (r.state == RUNNABLE || (r.state == RUNNING && e.Sched?))
      && (r.state == RUNNABLE ==> r.priority == RaisedBy(t.proc[p].priority, if Promotes(t, e) then 1 else 0))
  {
    hide On, Without, Facts, Wakeup, ExitStep, Owner, Charged, SchedStep, WaitStep, KillStep, SetPriorityStep;
    StepInv(t, e);
    match e {
      case Claim(c, np) => CpuOf(t, c);
      case NoStack(c) => EmbryoIsOther(t, c);
      case SetUp(c) => EmbryoIsOther(t, c);
      case CopyFailed(c) => EmbryoIsOther(t, c);
      case Forked(c) => EmbryoIsOther(t, c);
      case Exit(c) => ExitRunnable(t, c, p);
      case Wait(c, now) => WaitRunnable(t, c, now, p);
      case Sched(c, now) => SchedRunnable(t, c, now, p);
      case Yield(c, now) => CpuOf(t, c);
      case Sleep(c, ch, now) => CpuOf(t, c);
      case Wake1(ch) => WakeupEffect(t, ch);
      case Kill(pid) => KillRunnable(t, pid, p);
      case SetPrio(pid, prio) => KillRunnable(t, pid, p); SetPrioRunnable(t, pid, prio, p);
    }
  }

  lemma WaitRunnable(t: Table, c: nat, now: Ticks, p: nat)
    requires Inv(t) && Enabled(t, Wait(c, now)) && p < NPROC && t.proc[p].state == RUNNABLE
    ensures t.cpu[c].i < NPROC && Shape(WaitStep(t, c, t.cpu[c].i, now).0)
    ensures WaitStep(t, c, t.cpu[c].i, now).0.proc[p] == t.proc[p]
  {
    hide On, Without, Facts, FirstChild, Charged;
    CpuOf(t, c);
    ZombieFound(t, t.cpu[c].i);
  }

  lemma KillRunnable(t: Table, pid: int, p: nat)
    requires Inv(t) && p < NPROC && t.proc[p].state == RUNNABLE
    ensures Shape(KillStep(t, pid))
    ensures var r := KillStep(t, pid).proc[p];
      r.state == RUNNABLE && r.pid == t.proc[p].pid && r.priority == t.proc[p].priority
  {
    hide On, Without, Facts, Owner;
  }

  lemma SetPrioRunnable(t: Table, pid: int, prio: int, p: nat)
    requires Inv(t) && p < NPROC && t.proc[p].state == RUNNABLE && pid != t.proc[p].pid
    ensures Shape(SetPriorityStep(t, pid, prio)) && SetPriorityStep(t, pid, prio).proc[p] == t.proc[p]
  {
    hide On, Without, Facts, Owner;
  }

  lemma EmbryoIsOther(t: Table, c: nat)
    requires Inv(t) && Runs(t, c) && t.fork[t.cpu[c].i] != NotForking
    ensures t.cpu[c].i < NPROC && t.fork[t.cpu[c].i].np < NPROC && t.proc[t.fork[t.cpu[c].i].np].state == EMBRYO
  {
    assert ForkOk(t, t.cpu[c].i);
  }

  lemma ExitRunnable(t: Table, c: nat, p: nat)
    requires Inv(t) && Enabled(t, Exit(c)) && p < NPROC && t.proc[p].state == RUNNABLE
    ensures Shape(ExitStep(t, c, t.cpu[c].i))
    ensures var r := ExitStep(t, c, t.cpu[c].i).proc[p];
      r.state == RUNNABLE && r.pid == t.proc[p].pid && r.priority == t.proc[p].priority
  {
    hide On, ExitStep;
    CpuOf(t, c);
    var x := t.cpu[c].i;
    assert ParentOk(t, x);
    ExitEffect(t, c, x);
    assert ExitRel(t, ExitStep(t, c, x), x, p);
  }

  lemma SchedRunnable(t: Table, c: nat, now: Ticks, p: nat)
    requires Inv(t) && c < NCPU && t.cpu[c] == Null && p < NPROC && t.proc[p].state == RUNNABLE
    ensures Shape(SchedStep(t, c, now))
    ensures var r := SchedStep(t, c, now).proc[p];
      && r.pid == t.proc[p].pid && (r.state == RUNNABLE || r.state == RUNNING)
      && (r.state == RUNNABLE ==> r.priority == RaisedBy(t.proc[p].priority, if now >= t.promoteAt then 1 else 0))
  {
    hide On, Without, Facts;
    SchedFacts(t, c, now);
    if now >= t.promoteAt {
      PromoteFacts(t, now);
    }
  }

  // ---- bounded waiting over runs ----

  /** Passes of the scheduler loop in es that promote. */
  ghost function Promotions(t: Table, es: seq<Event>): nat
    requires Inv(t) && Legal(t, es)
    decreases |es|
  {
    if es == [] then 0
    else StepInv(t, es[0]); (if Promotes(t, es[0]) then 1 else 0) + Promotions(Step(t, es[0]), es[1..])
  }

  ghost predicate RunnableThroughout(t: Table, es: seq<Event>, p: nat)
    requires Inv(t) && Legal(t, es) && p < NPROC
    decreases |es|
  {
    t.proc[p].state == RUNNABLE
    && (es == [] || (StepInv(t, es[0]); RunnableThroughout(Step(t, es[0]), es[1..], p)))
  }

  /** p gets a CPU no later than the n-th pass of the scheduler loop in es. */
  ghost predicate DispatchedWithin(t: Table, es: seq<Event>, p: nat, n: nat)
    requires Inv(t) && Legal(t, es) && p < NPROC
    decreases |es|
  {
    es != [] && (StepInv(t, es[0]);
      var u := Step(t, es[0]);
      if es[0].Sched? then n > 0
        && ((u.proc[p].state == RUNNING && OnCpu(u, es[0].c, p)) || DispatchedWithin(u, es[1..], p, n - 1))
      else DispatchedWithin(u, es[1..], p, n))
  }

  function Scheds(es: seq<Event>): nat {
    if es == [] then 0 else (if es[0].Sched? then 1 else 0) + Scheds(es[1..])
  }

  ghost predicate AllLeaveAlone(es: seq<Event>, pid: nat) {
    forall i :: 0 <= i < |es| ==> LeavesAlone(es[i], pid)
  }

  /** While it waits, n promotions raise a process by n levels, up to the top. */
  lemma {:induction false} PromotionsRaise(t: Table, es: seq<Event>, p: nat)
    requires Inv(t) && Legal(t, es) && p < NPROC && RunnableThroughout(t, es, p) && AllLeaveAlone(es, t.proc[p].pid)
    ensures var r := Exec(t, es).proc[p];
      r.state == RUNNABLE && r.pid == t.proc[p].pid && r.priority == RaisedBy(t.proc[p].priority, Promotions(t, es))
    decreases |es|
  {
    hide Facts, Step, Enabled;
    if es != [] {
      assert LeavesAlone(es[0], t.proc[p].pid);
      StepRunnable(t, es[0], p);
      PromotionsRaise(Step(t, es[0]), es[1..], p);
    }
  }

  /** From place k of the top queue a process is dispatched by the (k+1)-th pass. */
  lemma {:induction false} TopIsDispatched(t: Table, es: seq<Event>, p: nat, k: nat)
    requires Inv(t) && Legal(t, es) && AtTop(t, p, k) && AllLeaveAlone(es, t.proc[p].pid) && Scheds(es) > k
    ensures DispatchedWithin(t, es, p, k + 1)
    decreases |es|
  {
    hide Facts, Step, Enabled;
    AtTopIs(t, p, k);
    assert LeavesAlone(es[0], t.proc[p].pid);
    StepRunnable(t, es[0], p);
    StepAtTop(t, es[0], p, k);
    var u := Step(t, es[0]);
    if es[0].Sched? {
      if k > 0 { TopIsDispatched(u, es[1..], p, k - 1); }
    } else if AtTop(u, p, k) {
      TopIsDispatched(u, es[1..], p, k);
    } else {
      TopIsDispatched(u, es[1..], p, k - 1);
      WithinMore(u, es[1..], p, k);
    }
  }

  lemma {:induction false} WithinMore(t: Table, es: seq<Event>, p: nat, n: nat)
    requires Inv(t) && Legal(t, es) && p < NPROC && DispatchedWithin(t, es, p, n)
    ensures DispatchedWithin(t, es, p, n + 1)
    decreases |es|
  {
    hide Facts, Step, Enabled;
    StepInv(t, es[0]);
    var u := Step(t, es[0]);
    if !es[0].Sched? {
      WithinMore(u, es[1..], p, n);
    } else if !(u.proc[p].state == RUNNING && OnCpu(u, es[0].c, p)) {
      WithinMore(u, es[1..], p, n - 1);
    }
  }

  lemma TopPlace(t: Table, p: nat) returns (k: nat)
    requires Partition(t) && p < NPROC && t.proc[p].state == RUNNABLE && t.proc[p].priority == MAXPRIO
    ensures AtTop(t, p, k) && k < NPROC
  {
    var s := t.q[ReadyQ(MAXPRIO)];
    assert On(t.q, Home(t.proc[p]), p);
    k :| 0 <= k < |s| && s[k] == p;
    QueueKnown(t, ReadyQ(MAXPRIO));
    ElementsCount(s);
    assert Elements(s) <= Span(0, NPROC);
    CardinalityMono(Elements(s), Span(0, NPROC));
  }

  /**
    No starvation.  If a process stays runnable while es1 promotes often enough
    to bring it to the top, then whatever fork, wakeup, kill, yield, promotion and
    setpriority do to the others, it is dispatched within the next NPROC passes of
    the scheduler, at its place in the top queue at the latest.
   */
  lemma BoundedWaiting(t: Table, es1: seq<Event>, es2: seq<Event>, p: nat)
    requires Inv(t) && Legal(t, es1) && p < NPROC && RunnableThroughout(t, es1, p)
    requires Legal(Exec(t, es1), es2)
    requires AllLeaveAlone(es1, t.proc[p].pid) && AllLeaveAlone(es2, t.proc[p].pid)
    requires Promotions(t, es1) >= MAXPRIO - t.proc[p].priority && Scheds(es2) >= NPROC
    ensures var u := Exec(t, es1);
      exists k: nat :: k < NPROC && AtTop(u, p, k) && DispatchedWithin(u, es2, p, k + 1)
  {
    PromotionsRaise(t, es1, p);
    var u := Exec(t, es1);
    var k := TopPlace(u, p);
    TopIsDispatched(u, es2, p, k);
  }
}
