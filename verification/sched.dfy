/**
  The process table and scheduler of proc.c (the CS333_P3/P4 build), as a state
  machine: one event per critical section of ptable.lock.  Processes are numbers
  below NPROC.  The six state lists and the MAXPRIO + 1 ready queues form one
  family of queues: number StateQ(s) is list[s], number ReadyQ(j) is ready[j].
 */
module Scheduler {
  import opened Seqs

  type pos = x: nat | x > 0 witness 1
  type Budget = x: int | 0 < x < 0x8000_0000 witness 125
  type Ticks = x: int | 0 <= x < 0x1_0000_0000

  const NPROC: pos
  const NCPU: pos
  const MAXPRIO: nat
  const BUDGET: Budget
  const TICKS_TO_PROMOTE: nat
  const NQ: nat := 7 + MAXPRIO

  datatype PState = UNUSED | EMBRYO | SLEEPING | RUNNABLE | RUNNING | ZOMBIE

  datatype Link = Null | To(i: nat)

  /** What a process sleeps on: a process (wait), or anything else. */
  datatype Chan = NoChan | OnProc(i: nat) | Other(id: nat)

  datatype Proc = Proc(state: PState, pid: nat, parent: Link, chan: Chan, killed: bool,
                       priority: nat, budget: int, ticksIn: Ticks)

  /** How far a process is inside fork(): it has claimed np, or also set it up. */
  datatype Forking = NotForking | Claimed(np: nat) | Built(np: nat)

  datatype Table = Table(proc: seq<Proc>, q: seq<seq<nat>>, cpu: seq<Link>, fork: seq<Forking>,
                         nextpid: nat, init: nat, promoteAt: Ticks)

  function StateQ(s: PState): nat {
    match s case UNUSED => 0 case EMBRYO => 1 case SLEEPING => 2 case RUNNABLE => 3 case RUNNING => 4 case ZOMBIE => 5
  }

  function ReadyQ(j: nat): nat {
    6 + j
  }

  /** The queue a process belongs on. */
  function Home(r: Proc): nat {
    if r.state == RUNNABLE then ReadyQ(r.priority) else StateQ(r.state)
  }

  predicate Live(s: PState) {
    s == SLEEPING || s == RUNNABLE || s == RUNNING
  }

  ghost predicate Shape(t: Table) {
    && |t.proc| == NPROC && |t.q| == NQ && |t.cpu| == NCPU && |t.fork| == NPROC
    && forall p :: 0 <= p < NPROC ==> t.proc[p].priority <= MAXPRIO
  }

  ghost predicate On(q: seq<seq<nat>>, k: int, p: nat) {
    0 <= k < |q| && p in q[k]
  }

  /** Every process is on exactly one queue, once, and it is the right one. */
  ghost predicate Partition(t: Table) {
    && Shape(t)
    && (forall k, p: nat :: On(t.q, k, p) ==> p < NPROC && Home(t.proc[p]) == k)
    && (forall p: nat :: p < NPROC ==> On(t.q, Home(t.proc[p]), p))
    && (forall k :: 0 <= k < NQ ==> NoDup(t.q[k]))
  }

  /** stateListRemove from its queue, change of fields, stateListAdd to the new queue. */
  ghost function Move(t: Table, p: nat, r: Proc): Table
    requires Shape(t) && p < NPROC && r.priority <= MAXPRIO
    ensures Shape(Move(t, p, r))
  {
    var q' := t.q[Home(t.proc[p]) := Without(t.q[Home(t.proc[p])], p)];
    t.(proc := t.proc[p := r], q := q'[Home(r) := q'[Home(r)] + [p]])
  }

  lemma MoveOn(t: Table, p: nat, r: Proc, k: int, x: nat)
    requires Partition(t) && p < NPROC && r.priority <= MAXPRIO
    ensures On(Move(t, p, r).q, k, x) <==> if x == p then k == Home(r) else On(t.q, k, x)
    ensures 0 <= k < NQ ==> NoDup(Move(t, p, r).q[k])
  {
    hide Without, NoDup;
    var h := Home(t.proc[p]);
    WithoutNoDup(t.q[h], p);
    var q' := t.q[h := Without(t.q[h], p)];
    assert p !in q'[Home(r)] by { assert Home(r) != h ==> !On(t.q, Home(r), p); }
    AppendNoDup(q'[Home(r)], p);
    assert k != h ==> !On(t.q, k, p);
  }

  lemma MovePartition(t: Table, p: nat, r: Proc)
    requires Partition(t) && p < NPROC && r.priority <= MAXPRIO
    ensures Partition(Move(t, p, r))
  {
    hide On, NoDup, Without;
    var u := Move(t, p, r);
    forall k, x: nat ensures On(u.q, k, x) <==> if x == p then k == Home(r) else On(t.q, k, x) {
      MoveOn(t, p, r, k, x);
    }
    forall k | 0 <= k < NQ ensures NoDup(u.q[k]) { MoveOn(t, p, r, k, 0); }
  }

  lemma MoveQueues(t: Table, p: nat, r: Proc)
    requires Partition(t) && p < NPROC && r.priority <= MAXPRIO
    ensures forall k :: 0 <= k < NQ && k != Home(t.proc[p]) && k != Home(r) ==> Move(t, p, r).q[k] == t.q[k]
    ensures Home(r) != Home(t.proc[p]) ==>
      && Move(t, p, r).q[Home(r)] == t.q[Home(r)] + [p]
      && Move(t, p, r).q[Home(t.proc[p])] == Without(t.q[Home(t.proc[p])], p)
  {
  }

  // ---- time slices: 32-bit arithmetic as in yield and sleep ----

  function U32(x: int): Ticks {
    x % 0x1_0000_0000
  }

  function Int32(x: int): int {
    if U32(x) < 0x8000_0000 then U32(x) else U32(x) - 0x1_0000_0000
  }

  function Elapsed(r: Proc, now: Ticks): Ticks {
    U32(now - r.ticksIn)
  }

  /** budget -= ticks - cpu_ticks_in; on exhaustion drop a level and start over. */
  function Charged(r: Proc, now: Ticks): Proc {
    var b := Int32(r.budget - Elapsed(r, now));
    if b <= 0 then r.(priority := if r.priority > 0 then r.priority - 1 else 0, budget := BUDGET)
    else r.(budget := b)
  }

  predicate Fresh(b: int) {
    1 <= b <= BUDGET
  }

  /**
    The mixed int/uint subtraction keeps the budget in range exactly when the
    elapsed ticks are within 2^31 of it, or wrap around to no more than BUDGET.
   */
  lemma ChargedFreshIff(r: Proc, now: Ticks)
    requires Fresh(r.budget)
    ensures Fresh(Charged(r, now).budget) <==>
      var e := Elapsed(r, now);
      e <= r.budget + 0x8000_0000 || r.budget + 0x1_0000_0000 - e <= BUDGET
    ensures Elapsed(r, now) < 0x8000_0000 ==>
      && Fresh(Charged(r, now).budget)
      && Charged(r, now) == if r.budget > Elapsed(r, now) then r.(budget := r.budget - Elapsed(r, now))
                            else r.(priority := if r.priority > 0 then r.priority - 1 else 0, budget := BUDGET)
  {
  }

  /** A process with one tick left that runs for 2^31 + 2 comes back with the largest budget an int can hold. */
  lemma ChargedTooLong(r: Proc, now: Ticks)
    requires r.budget == 1 && r.ticksIn == 0 && now == 0x8000_0002 && BUDGET < 0x7FFF_FFFF
    ensures Charged(r, now) == r.(budget := 0x7FFF_FFFF) && !Fresh(Charged(r, now).budget)
  {
  }

  // ---- wakeup1 ----

  function ChanOf(l: Link): Chan {
    if l.To? then OnProc(l.i) else NoChan
  }

  ghost predicate Known(s: seq<nat>) {
    forall i :: 0 <= i < |s| ==> s[i] < NPROC
  }

  ghost function Wake(t: Table, s: seq<nat>, ch: Chan): Table
    requires Shape(t) && Known(s)
    ensures Shape(Wake(t, s, ch))
    decreases |s|
  {
    if s == [] then t
    else
      var r := t.proc[s[0]];
      Wake(if r.chan == ch then Move(t, s[0], r.(state := RUNNABLE)) else t, s[1..], ch)
  }

  lemma QueueKnown(t: Table, k: nat)
    requires Partition(t) && k < NQ
    ensures Known(t.q[k])
    ensures forall i :: 0 <= i < |t.q[k]| ==> Home(t.proc[t.q[k][i]]) == k
  {
    forall i | 0 <= i < |t.q[k]| ensures t.q[k][i] < NPROC && Home(t.proc[t.q[k][i]]) == k {
      assert On(t.q, k, t.q[k][i]);
    }
  }

  ghost function Wakeup(t: Table, ch: Chan): Table
    requires Partition(t)
  {
    QueueKnown(t, StateQ(SLEEPING));
    Wake(t, t.q[StateQ(SLEEPING)], ch)
  }

  /** Everything but process records and queues. */
  ghost predicate SameRest(t: Table, u: Table) {
    u.cpu == t.cpu && u.fork == t.fork && u.nextpid == t.nextpid && u.init == t.init && u.promoteAt == t.promoteAt
  }

  ghost predicate QueuesGrow(t: Table, u: Table)
    requires |t.q| == |u.q| == NQ
  {
    && (forall k :: 0 <= k < 6 && k != StateQ(SLEEPING) ==> u.q[k] == t.q[k])
    && (forall k :: 6 <= k < NQ ==> t.q[k] <= u.q[k])
  }

  lemma {:induction false} WakeEffect(t: Table, s: seq<nat>, ch: Chan)
    requires Partition(t) && NoDup(s) && Known(s) && forall i :: 0 <= i < |s| ==> t.proc[s[i]].state == SLEEPING
    ensures var u := Wake(t, s, ch);
      && Partition(u) && SameRest(t, u) && QueuesGrow(t, u)
      && forall p :: 0 <= p < NPROC ==>
           u.proc[p] == if p in s && t.proc[p].chan == ch then t.proc[p].(state := RUNNABLE) else t.proc[p]
    decreases |s|
  {
    hide On, Without;
    if s != [] {
      var p := s[0];
      var r := t.proc[p].(state := RUNNABLE);
      var t1 := if r.chan == ch then Move(t, p, r) else t;
      MovePartition(t, p, r);
      MoveQueues(t, p, r);
      assert p !in s[1..];
      assert s == [p] + s[1..];
      WakeEffect(t1, s[1..], ch);
    }
  }

  /** wakeup1: exactly the processes asleep on the channel become runnable, in queue order, behind those there. */
  lemma WakeupEffect(t: Table, ch: Chan)
    requires Partition(t)
    ensures var u := Wakeup(t, ch);
      && Partition(u) && SameRest(t, u) && QueuesGrow(t, u)
      && forall p :: 0 <= p < NPROC ==>
           u.proc[p] == if t.proc[p].state == SLEEPING && t.proc[p].chan == ch then t.proc[p].(state := RUNNABLE)
                        else t.proc[p]
  {
    var s := t.q[StateQ(SLEEPING)];
    QueueKnown(t, StateQ(SLEEPING));
    WakeEffect(t, s, ch);
    forall p | 0 <= p < NPROC && t.proc[p].state == SLEEPING ensures p in s {
      assert On(t.q, Home(t.proc[p]), p);
    }
  }

  // ---- promotion and dispatch ----

  function Promoted(r: Proc): Proc {
    if (r.state == SLEEPING || r.state == RUNNING) || (r.state == RUNNABLE && r.priority < MAXPRIO) then
      r.(budget := BUDGET, priority := if r.priority < MAXPRIO then r.priority + 1 else r.priority)
    else r
  }

  function ShiftedReady(q: seq<seq<nat>>, k: int): seq<nat>
    requires |q| == NQ && 0 <= k < NQ
  {
    if k < 6 || MAXPRIO == 0 then q[k]
    else if k == ReadyQ(MAXPRIO) then q[k] + q[k-1]
    else if k == 6 then []
    else q[k-1]
  }

  /** One promotion: every level moves up by one, the two top levels merge, order is kept. */
  ghost function Promote(t: Table, now: Ticks): Table
    requires Shape(t)
  {
    t.(proc := seq(NPROC, p requires 0 <= p < NPROC => Promoted(t.proc[p])),
       q := seq(NQ, k requires 0 <= k < NQ => ShiftedReady(t.q, k)),
       promoteAt := U32(now + TICKS_TO_PROMOTE))
  }

  lemma PromotePartition(t: Table, now: Ticks)
    requires Partition(t)
    ensures Partition(Promote(t, now))
  {
    var u := Promote(t, now);
    forall k, p: nat ensures On(u.q, k, p) <==> p < NPROC && Home(u.proc[p]) == k {
      assert p < NPROC ==> On(t.q, Home(t.proc[p]), p);
      assert On(t.q, k, p) || !On(t.q, k, p);
      assert On(t.q, k - 1, p) || !On(t.q, k - 1, p);
    }
    forall k | 0 <= k < NQ ensures NoDup(u.q[k]) { ShiftedNoDup(t, k); }
  }

  lemma ShiftedNoDup(t: Table, k: nat)
    requires Partition(t) && k < NQ
    ensures NoDup(ShiftedReady(t.q, k))
  {
    if k == ReadyQ(MAXPRIO) && MAXPRIO > 0 {
      var a, b := t.q[k], t.q[k-1];
      forall i, j | 0 <= i < j < |a + b| ensures (a + b)[i] != (a + b)[j] {
        if i < |a| <= j {
          assert On(t.q, k, a[i]) && On(t.q, k - 1, b[j - |a|]);
        } else {
          assert NoDup(a) && NoDup(b);
        }
      }
    }
  }

  /** The highest non-empty ready queue at or below level j, or -1. */
  function TopReady(q: seq<seq<nat>>, j: int): (r: int)
    requires |q| == NQ && -1 <= j <= MAXPRIO
    ensures -1 <= r <= j
    ensures r >= 0 ==> q[ReadyQ(r)] != []
    ensures forall i :: r < i <= j ==> q[ReadyQ(i)] == []
  {
    if j < 0 then -1 else if q[ReadyQ(j)] != [] then j else TopReady(q, j - 1)
  }

  /** The head of the highest non-empty queue starts running on CPU c; it forgets what it slept on. */
  ghost function Dispatch(t: Table, c: nat, now: Ticks): Table
    requires Partition(t) && c < NCPU
  {
    var j := TopReady(t.q, MAXPRIO);
    if j < 0 then t
    else
      QueueKnown(t, ReadyQ(j));
      var p := t.q[ReadyQ(j)][0];
      Move(t, p, t.proc[p].(state := RUNNING, ticksIn := now, chan := NoChan)).(cpu := t.cpu[c := To(p)])
  }

  ghost function SchedStep(t: Table, c: nat, now: Ticks): Table
    requires Partition(t) && c < NCPU
  {
    if now >= t.promoteAt then
      PromotePartition(t, now);
      Dispatch(Promote(t, now), c, now)
    else Dispatch(t, c, now)
  }

  // ---- fork, exit, wait, yield, sleep, kill, setpriority ----

  ghost predicate OnCpu(t: Table, c: nat, p: nat) {
    c < |t.cpu| && t.cpu[c] == To(p) && p < NPROC
  }

  function Unclaim(t: Table, p: nat): Table
    requires p < |t.fork|
  {
    t.(fork := t.fork[p := NotForking])
  }

  /** allocproc's critical section; np is what list[UNUSED].head held when it was read. */
  ghost function Alloc(t: Table, p: nat, np: nat): Table
    requires Shape(t) && p < NPROC && np < NPROC
  {
    Move(t, np, t.proc[np].(state := EMBRYO, pid := t.nextpid))
      .(nextpid := t.nextpid + 1, fork := t.fork[p := Claimed(np)])
  }

  /** allocproc after kalloc succeeded. */
  ghost function Build(t: Table, p: nat, np: nat): Table
    requires Shape(t) && p < NPROC && np < NPROC
  {
    t.(proc := t.proc[np := t.proc[np].(budget := BUDGET, priority := MAXPRIO, ticksIn := 0)],
      fork := t.fork[p := Built(np)])
  }

  /** The two ways fork gives its embryo back: no kernel stack, or copyuvm failed. */
  ghost function Abandon(t: Table, p: nat, np: nat): Table
    requires Shape(t) && p < NPROC && np < NPROC
  {
    Unclaim(Move(t, np, t.proc[np].(state := UNUSED)), p)
  }

  /** The end of fork: the child gets its parent and becomes runnable. */
  ghost function Publish(t: Table, p: nat, np: nat): Table
    requires Shape(t) && p < NPROC && np < NPROC
  {
    Unclaim(Move(t, np, t.proc[np].(parent := To(p), state := RUNNABLE)), p)
  }

  ghost predicate IsChild(t: Table, z: nat, p: nat)
    requires z < |t.proc|
  {
    t.proc[z].state != UNUSED && t.proc[z].parent == To(p)
  }

  ghost predicate HasChild(t: Table, p: nat) {
    exists z :: 0 <= z < |t.proc| && IsChild(t, z, p)
  }

  ghost predicate HasZombie(t: Table, p: nat) {
    exists z :: 0 <= z < |t.proc| && IsChild(t, z, p) && t.proc[z].state == ZOMBIE
  }

  ghost function Reparent(t: Table, p: nat): Table
    requires Shape(t)
  {
    t.(proc := seq(NPROC, z requires 0 <= z < NPROC =>
                     if IsChild(t, z, p) then t.proc[z].(parent := To(t.init)) else t.proc[z]))
  }

  lemma ReparentPartition(t: Table, p: nat)
    requires Partition(t)
    ensures Partition(Reparent(t, p))
  {
    hide On;
    var u := Reparent(t, p);
    assert forall z :: 0 <= z < NPROC ==>
      Home(u.proc[z]) == Home(t.proc[z]) && u.proc[z].priority == t.proc[z].priority;
    assert u.q == t.q;
  }

  /** exit up to sched(): wake the parent, give the children to init, become a zombie. */
  ghost function ExitStep(t: Table, c: nat, p: nat): Table
    requires Partition(t) && c < NCPU && p < NPROC
  {
    var t1 := Wakeup(t, ChanOf(t.proc[p].parent));
    WakeupEffect(t, ChanOf(t.proc[p].parent));
    var t2 := Reparent(t1, p);
    ReparentPartition(t1, p);
    var t3 := if HasZombie(t1, p) then Wakeup(t2, OnProc(t.init)) else t2;
    WakeupEffect(t2, OnProc(t.init));
    Move(t3, p, t3.proc[p].(state := ZOMBIE)).(cpu := t3.cpu[c := Null])
  }

  ghost function SleepStep(t: Table, c: nat, p: nat, ch: Chan, now: Ticks): Table
    requires Shape(t) && c < NCPU && p < NPROC
  {
    Move(t, p, Charged(t.proc[p], now).(chan := ch, state := SLEEPING)).(cpu := t.cpu[c := Null])
  }

  ghost function YieldStep(t: Table, c: nat, p: nat, now: Ticks): Table
    requires Shape(t) && c < NCPU && p < NPROC
  {
    Move(t, p, Charged(t.proc[p], now).(state := RUNNABLE)).(cpu := t.cpu[c := Null])
  }

  /** First process on s whose parent is p. */
  function FirstChild(proc: seq<Proc>, s: seq<nat>, p: nat): (l: Link)
    requires forall i :: 0 <= i < |s| ==> s[i] < |proc|
    ensures l.To? ==> l.i in s && l.i < |proc| && proc[l.i].parent == To(p)
    ensures l == Null <==> forall i :: 0 <= i < |s| ==> proc[s[i]].parent != To(p)
  {
    if s == [] then Null
    else if proc[s[0]].parent == To(p) then To(s[0])
    else FirstChild(proc, s[1..], p)
  }

  datatype WaitResult = Reaped(pid: nat) | Failed | Blocked

  function Reap(r: Proc): Proc {
    r.(pid := 0, parent := Null, killed := false, state := UNUSED)
  }

  /** One pass of wait's loop, up to its return or to sched() inside sleep. */
  ghost function WaitStep(t: Table, c: nat, p: nat, now: Ticks): (Table, WaitResult)
    requires Partition(t) && c < NCPU && p < NPROC
  {
    QueueKnown(t, StateQ(ZOMBIE));
    var z := FirstChild(t.proc, t.q[StateQ(ZOMBIE)], p);
    if z.To? then (Move(t, z.i, Reap(t.proc[z.i])), Reaped(t.proc[z.i].pid))
    else if !HasChild(t, p) || t.proc[p].killed then (t, Failed)
    else (SleepStep(t, c, p, OnProc(p), now), Blocked)
  }

  /** The process with this pid among those with index below n that satisfy the state test. */
  ghost function Owner(t: Table, pid: int, n: nat): (l: Link)
    requires n <= |t.proc|
    ensures l.To? ==> l.i < n && t.proc[l.i].state != UNUSED && t.proc[l.i].pid == pid
    ensures l == Null ==> forall i :: 0 <= i < n && t.proc[i].state != UNUSED ==> t.proc[i].pid != pid
  {
    if n == 0 then Null
    else if t.proc[n-1].state != UNUSED && t.proc[n-1].pid == pid then To(n - 1)
    else Owner(t, pid, n - 1)
  }

  ghost function KillStep(t: Table, pid: int): Table
    requires Shape(t)
  {
    var l := Owner(t, pid, NPROC);
    if l == Null then t
    else
      var r := t.proc[l.i].(killed := true);
      if r.state == SLEEPING then Move(t.(proc := t.proc[l.i := r]), l.i, r.(state := RUNNABLE))
      else t.(proc := t.proc[l.i := r])
  }

  ghost predicate SetApplies(t: Table, pid: int, prio: int)
    requires Shape(t)
  {
    && 0 <= pid <= 32767 && 0 <= prio <= MAXPRIO
    && Owner(t, pid, NPROC).To? && Live(t.proc[Owner(t, pid, NPROC).i].state)
  }

  ghost function SetPriorityStep(t: Table, pid: int, prio: int): Table
    requires Shape(t)
  {
    if !SetApplies(t, pid, prio) then t
    else
      var p := Owner(t, pid, NPROC).i;
      var r := t.proc[p].(priority := prio, budget := BUDGET);
      if t.proc[p].priority == prio then t
      else if r.state == RUNNABLE then Move(t, p, r)
      else t.(proc := t.proc[p := r])
  }

  // ---- what every reachable state satisfies ----

  /** Each RUNNING process is current on exactly one CPU, and only RUNNING ones are. */
  ghost predicate CpuInv(t: Table)
    requires Shape(t)
  {
    && (forall c :: 0 <= c < NCPU && t.cpu[c].To? ==> t.cpu[c].i < NPROC && t.proc[t.cpu[c].i].state == RUNNING)
    && (forall c, d :: 0 <= c < d < NCPU && t.cpu[c].To? ==> t.cpu[c] != t.cpu[d])
    && (forall p :: 0 <= p < NPROC && t.proc[p].state == RUNNING ==> To(p) in t.cpu)
  }

  ghost predicate PidInv(t: Table)
    requires Shape(t)
  {
    && (forall p :: 0 <= p < NPROC && t.proc[p].state != UNUSED ==> 1 <= t.proc[p].pid < t.nextpid)
    && (forall p, r :: 0 <= p < r < NPROC && t.proc[p].state != UNUSED && t.proc[r].state != UNUSED
          ==> t.proc[p].pid != t.proc[r].pid)
  }

  ghost predicate ParentOk(t: Table, p: nat)
    requires Shape(t) && p < NPROC && t.init < NPROC
  {
    var r := t.proc[p];
    && (r.parent.To? ==>
          && r.parent.i < NPROC && Live(t.proc[r.parent.i].state) && t.proc[r.parent.i].pid < r.pid
          && (Live(r.state) || r.state == ZOMBIE))
    && ((Live(r.state) || r.state == ZOMBIE) && p != t.init ==> r.parent.To?)
  }

  ghost predicate TreeInv(t: Table)
    requires Shape(t)
  {
    && t.init < NPROC && Live(t.proc[t.init].state) && t.proc[t.init].pid == 1 && t.proc[t.init].parent == Null
    && forall p :: 0 <= p < NPROC ==> ParentOk(t, p)
  }

  predicate Active(r: Proc) {
    (r.state == RUNNING || r.state == RUNNABLE) && r.chan == NoChan
  }

  ghost predicate ForkOk(t: Table, p: nat)
    requires Shape(t) && p < NPROC
  {
    t.fork[p] != NotForking ==>
      var np := t.fork[p].np;
      && Active(t.proc[p])
      && np < NPROC && t.proc[np].state == EMBRYO && t.proc[p].pid < t.proc[np].pid
      && (t.fork[p].Built? ==> t.proc[np].priority == MAXPRIO && t.proc[np].budget == BUDGET)
  }

  ghost predicate ForkInv(t: Table)
    requires Shape(t)
  {
    && (forall p :: 0 <= p < NPROC ==> ForkOk(t, p))
    && (forall p, r :: 0 <= p < r < NPROC && t.fork[p] != NotForking && t.fork[r] != NotForking
          ==> t.fork[p].np != t.fork[r].np)
  }

  ghost predicate ProcOk(t: Table, p: nat)
    requires Shape(t) && p < NPROC
  {
    var r := t.proc[p];
    && (r.state == SLEEPING ==> r.chan != NoChan)
    && (r.chan != NoChan ==> r.state == SLEEPING || r.state == RUNNABLE)
    && (r.chan.OnProc? ==> r.chan.i == p)
    && (Live(r.state) ==> Fresh(r.budget))
  }

  /** A process asleep in wait has no zombie child. */
  ghost predicate WaitInv(t: Table)
    requires Shape(t)
  {
    forall p, z :: 0 <= p < NPROC && 0 <= z < NPROC && t.proc[p].state == SLEEPING && t.proc[p].chan == OnProc(p)
      ==> !(t.proc[z].state == ZOMBIE && t.proc[z].parent == To(p))
  }

  ghost predicate Facts(t: Table)
    requires Shape(t)
  {
    && CpuInv(t) && PidInv(t) && TreeInv(t) && ForkInv(t) && WaitInv(t)
    && forall p :: 0 <= p < NPROC ==> ProcOk(t, p)
  }

  ghost predicate Inv(t: Table) {
    Partition(t) && Facts(t)
  }

  // ---- events ----

  datatype Event =
    | Claim(c: nat, np: nat)                   // allocproc, first critical section
    | NoStack(c: nat)                          // allocproc, kalloc failed
    | SetUp(c: nat)                            // allocproc, kalloc succeeded
    | CopyFailed(c: nat)                       // fork, copyuvm failed
    | Forked(c: nat)                           // fork, last critical section
    | Exit(c: nat)
    | Wait(c: nat, now: Ticks)                 // one pass of wait's loop
    | Sched(c: nat, now: Ticks)                // one pass of scheduler's loop
    | Yield(c: nat, now: Ticks)
    | Sleep(c: nat, chan: Chan, now: Ticks)
    | Wake1(chan: Chan)
    | Kill(pid: int)
    | SetPrio(pid: int, prio: int)

  ghost predicate Runs(t: Table, c: nat)
    requires Inv(t)
  {
    c < NCPU && t.cpu[c].To?
  }

  ghost predicate SlicesOk(t: Table, c: nat, now: Ticks)
    requires Inv(t) && Runs(t, c)
  {
    Elapsed(t.proc[t.cpu[c].i], now) < 0x8000_0000
  }

  ghost predicate Enabled(t: Table, e: Event)
    requires Inv(t)
  {
    match e
    case Claim(c, np) =>         // the head read before the lock is still UNUSED, else assertState panics
      Runs(t, c) && t.fork[t.cpu[c].i] == NotForking && np < NPROC && t.proc[np].state == UNUSED
    case NoStack(c) => Runs(t, c) && t.fork[t.cpu[c].i].Claimed?
    case SetUp(c) => Runs(t, c) && t.fork[t.cpu[c].i].Claimed?
    case CopyFailed(c) => Runs(t, c) && t.fork[t.cpu[c].i].Built?
    case Forked(c) => Runs(t, c) && t.fork[t.cpu[c].i].Built?
    case Exit(c) =>              // init exiting panics
      Runs(t, c) && t.fork[t.cpu[c].i] == NotForking && t.cpu[c].i != t.init
    case Wait(c, now) => Runs(t, c) && t.fork[t.cpu[c].i] == NotForking && SlicesOk(t, c, now)
    case Sched(c, now) => c < NCPU && t.cpu[c] == Null
    case Yield(c, now) => Runs(t, c) && SlicesOk(t, c, now)
    case Sleep(c, ch, now) =>
      Runs(t, c) && t.fork[t.cpu[c].i] == NotForking && ch.Other? && SlicesOk(t, c, now)
    case Wake1(ch) => ch.Other?
    case Kill(pid) => true
    case SetPrio(pid, prio) => true
  }

  ghost function Step(t: Table, e: Event): Table
    requires Inv(t) && Enabled(t, e)
  {
    match e
    case Claim(c, np) => Alloc(t, t.cpu[c].i, np)
    case NoStack(c) => ForkingOk(t, c); Abandon(t, t.cpu[c].i, t.fork[t.cpu[c].i].np)
    case SetUp(c) => ForkingOk(t, c); Build(t, t.cpu[c].i, t.fork[t.cpu[c].i].np)
    case CopyFailed(c) => ForkingOk(t, c); Abandon(t, t.cpu[c].i, t.fork[t.cpu[c].i].np)
    case Forked(c) => ForkingOk(t, c); Publish(t, t.cpu[c].i, t.fork[t.cpu[c].i].np)
    case Exit(c) => ExitStep(t, c, t.cpu[c].i)
    case Wait(c, now) => WaitStep(t, c, t.cpu[c].i, now).0
    case Sched(c, now) => SchedStep(t, c, now)
    case Yield(c, now) => YieldStep(t, c, t.cpu[c].i, now)
    case Sleep(c, ch, now) => SleepStep(t, c, t.cpu[c].i, ch, now)
    case Wake1(ch) => Wakeup(t, ch)
    case Kill(pid) => KillStep(t, pid)
    case SetPrio(pid, prio) => SetPriorityStep(t, pid, prio)
  }

  lemma ForkingOk(t: Table, c: nat)
    requires Inv(t) && Runs(t, c) && t.fork[t.cpu[c].i] != NotForking
    ensures t.fork[t.cpu[c].i].np < NPROC
  {
    assert ForkOk(t, t.cpu[c].i);
  }

  // ---- each event keeps the facts ----

  /** Same pid and parent; a live process stays live, any other keeps its state. */
  predicate Kin(a: Proc, b: Proc) {
    a.pid == b.pid && a.parent == b.parent && Live(a.state) == Live(b.state) && (Live(a.state) || a.state == b.state)
  }

  ghost predicate SameFamily(t: Table, u: Table) {
    && |t.proc| == |u.proc| == NPROC && u.nextpid == t.nextpid && u.init == t.init
    && forall x :: 0 <= x < NPROC ==> Kin(t.proc[x], u.proc[x])
  }

  lemma FamilyKeeps(t: Table, u: Table)
    requires Shape(t) && Shape(u) && SameFamily(t, u) && PidInv(t) && TreeInv(t)
    ensures PidInv(u) && TreeInv(u)
  {
    assert Kin(t.proc[t.init], u.proc[t.init]);
    forall x | 0 <= x < NPROC ensures ParentOk(u, x) {
      assert ParentOk(t, x) && Kin(t.proc[x], u.proc[x]);
      assert t.proc[x].parent.To? ==> Kin(t.proc[t.proc[x].parent.i], u.proc[t.proc[x].parent.i]);
    }
    assert PidInv(u) by {
      assert forall x :: 0 <= x < NPROC ==> Kin(t.proc[x], u.proc[x]);
    }
  }

  /** Forking processes neither sleep nor end, and embryos are left alone. */
  lemma ForksKeep(t: Table, u: Table)
    requires Shape(t) && Shape(u) && SameFamily(t, u) && ForkInv(t) && u.fork == t.fork
    requires forall x :: 0 <= x < NPROC && t.proc[x].state == EMBRYO ==> u.proc[x] == t.proc[x]
    requires forall x :: 0 <= x < NPROC && t.fork[x] != NotForking && Active(t.proc[x]) ==> Active(u.proc[x])
    ensures ForkInv(u)
  {
    forall x | 0 <= x < NPROC ensures ForkOk(u, x) {
      assert ForkOk(t, x) && Kin(t.proc[x], u.proc[x]);
    }
  }

  /** Nobody starts waiting, no zombie appears and no zombie changes parent. */
  lemma WaitsKeep(t: Table, u: Table)
    requires Shape(t) && Shape(u) && SameFamily(t, u) && WaitInv(t)
    requires forall x :: 0 <= x < NPROC && u.proc[x].state == SLEEPING && u.proc[x].chan == OnProc(x) ==>
      t.proc[x].state == SLEEPING && t.proc[x].chan == OnProc(x)
    ensures WaitInv(u)
  {
    forall p, z | 0 <= p < NPROC && 0 <= z < NPROC && u.proc[p].state == SLEEPING && u.proc[p].chan == OnProc(p)
      ensures !(u.proc[z].state == ZOMBIE && u.proc[z].parent == To(p))
    {
      assert Kin(t.proc[z], u.proc[z]);
    }
  }

  lemma CpusKeep(t: Table, u: Table)
    requires Shape(t) && Shape(u) && CpuInv(t) && u.cpu == t.cpu
    requires forall x :: 0 <= x < NPROC ==> (u.proc[x].state == RUNNING <==> t.proc[x].state == RUNNING)
    ensures CpuInv(u)
  {
  }

  /** p leaves CPU c. */
  lemma CpuLeaves(t: Table, u: Table, c: nat, p: nat)
    requires Shape(t) && Shape(u) && CpuInv(t) && OnCpu(t, c, p) && u.cpu == t.cpu[c := Null]
    requires u.proc[p].state != RUNNING
    requires forall x :: 0 <= x < NPROC && x != p ==> (u.proc[x].state == RUNNING <==> t.proc[x].state == RUNNING)
    ensures CpuInv(u)
  {
    forall x | 0 <= x < NPROC && u.proc[x].state == RUNNING ensures To(x) in u.cpu {
      var d :| 0 <= d < NCPU && t.cpu[d] == To(x);
      assert u.cpu[d] == To(x);
    }
  }

  lemma CpuTakes(t: Table, u: Table, c: nat, p: nat)
    requires Shape(t) && Shape(u) && CpuInv(t) && c < NCPU && t.cpu[c] == Null && p < NPROC
    requires u.cpu == t.cpu[c := To(p)] && t.proc[p].state != RUNNING && u.proc[p].state == RUNNING
    requires forall x :: 0 <= x < NPROC && x != p ==> (u.proc[x].state == RUNNING <==> t.proc[x].state == RUNNING)
    ensures CpuInv(u)
  {
    forall x | 0 <= x < NPROC && u.proc[x].state == RUNNING ensures To(x) in u.cpu {
      if x == p {
        assert u.cpu[c] == To(x);
      } else {
        var d :| 0 <= d < NCPU && t.cpu[d] == To(x);
        assert u.cpu[d] == To(x);
      }
    }
  }

  lemma ClaimFacts(t: Table, c: nat, np: nat)
    requires Inv(t) && Enabled(t, Claim(c, np))
    ensures Facts(Alloc(t, t.cpu[c].i, np))
  {
    hide On, Without, CpuInv;
    CpuOf(t, c);
    var p := t.cpu[c].i;
    var u := Alloc(t, p, np);
    CpusKeep(t, u);
    assert ProcOk(t, np) && ParentOk(t, np);
    forall x | 0 <= x < NPROC ensures ParentOk(u, x) && ForkOk(u, x) && ProcOk(u, x) {
      assert ParentOk(t, x) && ForkOk(t, x) && ProcOk(t, x);
    }
    forall x | 0 <= x < NPROC && t.fork[x] != NotForking ensures t.fork[x].np != np { assert ForkOk(t, x); }
  }

  lemma CpuOf(t: Table, c: nat)
    requires Inv(t) && Runs(t, c)
    ensures OnCpu(t, c, t.cpu[c].i) && t.proc[t.cpu[c].i].state == RUNNING
  {
  }

  lemma AbandonFacts(t: Table, c: nat)
    requires Inv(t) && Runs(t, c) && t.fork[t.cpu[c].i] != NotForking
    ensures t.fork[t.cpu[c].i].np < NPROC && Facts(Abandon(t, t.cpu[c].i, t.fork[t.cpu[c].i].np))
  {
    hide On, Without, CpuInv;
    CpuOf(t, c);
    var p := t.cpu[c].i;
    assert ForkOk(t, p);
    var np := t.fork[p].np;
    var u := Abandon(t, p, np);
    CpusKeep(t, u);
    assert ProcOk(t, np) && ParentOk(t, np);
    forall x | 0 <= x < NPROC ensures ParentOk(u, x) && ForkOk(u, x) && ProcOk(u, x) {
      assert ParentOk(t, x) && ForkOk(t, x) && ProcOk(t, x);
    }
  }

  lemma BuildFacts(t: Table, c: nat)
    requires Inv(t) && Runs(t, c) && t.fork[t.cpu[c].i].Claimed?
    ensures t.fork[t.cpu[c].i].np < NPROC && Facts(Build(t, t.cpu[c].i, t.fork[t.cpu[c].i].np))
  {
    hide On, CpuInv, PidInv, TreeInv;
    CpuOf(t, c);
    var p := t.cpu[c].i;
    assert ForkOk(t, p);
    var np := t.fork[p].np;
    var u := Build(t, p, np);
    CpusKeep(t, u);
    FamilyKeeps(t, u);
    WaitsKeep(t, u);
    forall x | 0 <= x < NPROC ensures ForkOk(u, x) && ProcOk(u, x) {
      assert ForkOk(t, x) && ProcOk(t, x);
    }
  }

  lemma PublishFacts(t: Table, c: nat)
    requires Inv(t) && Runs(t, c) && t.fork[t.cpu[c].i].Built?
    ensures t.fork[t.cpu[c].i].np < NPROC && Facts(Publish(t, t.cpu[c].i, t.fork[t.cpu[c].i].np))
  {
    hide On, Without, CpuInv;
    CpuOf(t, c);
    var p := t.cpu[c].i;
    assert ForkOk(t, p);
    var np := t.fork[p].np;
    var u := Publish(t, p, np);
    CpusKeep(t, u);
    assert ProcOk(t, np) && ParentOk(t, np);
    forall x | 0 <= x < NPROC ensures ParentOk(u, x) && ForkOk(u, x) && ProcOk(u, x) {
      assert ParentOk(t, x) && ForkOk(t, x) && ProcOk(t, x);
    }
  }

  lemma YieldFacts(t: Table, c: nat, now: Ticks)
    requires Inv(t) && Runs(t, c) && SlicesOk(t, c, now)
    ensures Facts(YieldStep(t, c, t.cpu[c].i, now))
  {
    hide On, Without, CpuInv, PidInv, TreeInv, ForkInv, WaitInv, Charged;
    CpuOf(t, c);
    var p := t.cpu[c].i;
    assert ProcOk(t, p);
    var u := YieldStep(t, c, p, now);
    ChargedFreshIff(t.proc[p], now);
    CpuLeaves(t, u, c, p);
    FamilyKeeps(t, u);
    ForksKeep(t, u);
    WaitsKeep(t, u);
    forall x | 0 <= x < NPROC ensures ProcOk(u, x) { assert ProcOk(t, x); }
  }

  lemma SleepFacts(t: Table, c: nat, ch: Chan, now: Ticks)
    requires Inv(t) && Runs(t, c) && t.fork[t.cpu[c].i] == NotForking && SlicesOk(t, c, now)
    requires ch.Other? || (ch == OnProc(t.cpu[c].i) && !HasZombie(t, t.cpu[c].i))
    ensures Facts(SleepStep(t, c, t.cpu[c].i, ch, now))
  {
    hide On, Without, CpuInv, PidInv, TreeInv, ForkInv, Charged;
    CpuOf(t, c);
    var p := t.cpu[c].i;
    assert ProcOk(t, p);
    var u := SleepStep(t, c, p, ch, now);
    ChargedFreshIff(t.proc[p], now);
    CpuLeaves(t, u, c, p);
    FamilyKeeps(t, u);
    ForksKeep(t, u);
    forall x | 0 <= x < NPROC ensures ProcOk(u, x) { assert ProcOk(t, x); }
    assert WaitInv(u) by {
      forall z | 0 <= z < NPROC && t.proc[z].state == ZOMBIE && t.proc[z].parent == To(p) ensures HasZombie(t, p) {
        assert IsChild(t, z, p);
      }
    }
  }

  /** wait looks at the first child of the zombie list only, and misses no zombie child. */
  lemma ZombieFound(t: Table, p: nat)
    requires Partition(t)
    ensures Known(t.q[StateQ(ZOMBIE)])
    ensures FirstChild(t.proc, t.q[StateQ(ZOMBIE)], p).To? <==> HasZombie(t, p)
    ensures var z := FirstChild(t.proc, t.q[StateQ(ZOMBIE)], p);
      z.To? ==> z.i < NPROC && t.proc[z.i].state == ZOMBIE && t.proc[z.i].parent == To(p)
  {
    QueueKnown(t, StateQ(ZOMBIE));
    var s := t.q[StateQ(ZOMBIE)];
    var z := FirstChild(t.proc, s, p);
    if z.To? {
      assert On(t.q, StateQ(ZOMBIE), z.i);
      assert IsChild(t, z.i, p);
    }
    forall y | 0 <= y < NPROC && t.proc[y].state == ZOMBIE ensures y in s {
      assert On(t.q, Home(t.proc[y]), y);
    }
  }

  lemma ReapFacts(t: Table, z: nat)
    requires Inv(t) && z < NPROC && t.proc[z].state == ZOMBIE
    ensures Facts(Move(t, z, Reap(t.proc[z])))
  {
    hide On, Without, CpuInv;
    var u := Move(t, z, Reap(t.proc[z]));
    CpusKeep(t, u);
    assert ProcOk(t, z);
    forall x | 0 <= x < NPROC ensures ParentOk(u, x) && ForkOk(u, x) && ProcOk(u, x) {
      assert ParentOk(t, x) && ForkOk(t, x) && ProcOk(t, x);
    }
  }

  lemma WaitFacts(t: Table, c: nat, now: Ticks)
    requires Inv(t) && Enabled(t, Wait(c, now))
    ensures Partition(WaitStep(t, c, t.cpu[c].i, now).0) && Facts(WaitStep(t, c, t.cpu[c].i, now).0)
  {
    hide On, Without, Facts, Charged, Move;
    CpuOf(t, c);
    var p := t.cpu[c].i;
    ZombieFound(t, p);
    var z := FirstChild(t.proc, t.q[StateQ(ZOMBIE)], p);
    if z.To? {
      ReapFacts(t, z.i);
      MovePartition(t, z.i, Reap(t.proc[z.i]));
    } else if HasChild(t, p) && !t.proc[p].killed {
      SleepFacts(t, c, OnProc(p), now);
      SleepPartition(t, c, p, OnProc(p), now);
    }
  }

  lemma SleepPartition(t: Table, c: nat, p: nat, ch: Chan, now: Ticks)
    requires Partition(t) && c < NCPU && p < NPROC
    ensures Partition(SleepStep(t, c, p, ch, now)) && Partition(YieldStep(t, c, p, now))
  {
    hide On, Without;
    MovePartition(t, p, Charged(t.proc[p], now).(chan := ch, state := SLEEPING));
    MovePartition(t, p, Charged(t.proc[p], now).(state := RUNNABLE));
  }

  lemma WakeFacts(t: Table, ch: Chan)
    requires Inv(t)
    ensures Inv(Wakeup(t, ch))
  {
    hide On, Wakeup, CpuInv, PidInv, TreeInv, ForkInv, WaitInv;
    WakeupEffect(t, ch);
    var u := Wakeup(t, ch);
    CpusKeep(t, u);
    FamilyKeeps(t, u);
    forall x | 0 <= x < NPROC ensures ProcOk(u, x) { assert ProcOk(t, x); }
    ForksKeep(t, u);
    WaitsKeep(t, u);
  }

  lemma KillFacts(t: Table, pid: int)
    requires Inv(t)
    ensures Inv(KillStep(t, pid))
  {
    hide On, Without, CpuInv, PidInv, TreeInv, ForkInv, WaitInv, Owner;
    var l := Owner(t, pid, NPROC);
    if l.To? {
      var r := t.proc[l.i].(killed := true);
      var t1 := t.(proc := t.proc[l.i := r]);
      assert Partition(t1);
      var u := KillStep(t, pid);
      if r.state == SLEEPING { MovePartition(t1, l.i, r.(state := RUNNABLE)); }
      assert ProcOk(t, l.i);
      CpusKeep(t, u);
      FamilyKeeps(t, u);
      KillForks(t, u, l.i);
      WaitsKeep(t, u);
      forall x | 0 <= x < NPROC ensures ProcOk(u, x) { assert ProcOk(t, x); }
    }
  }

  lemma KillForks(t: Table, u: Table, p: nat)
    requires Shape(t) && Shape(u) && SameFamily(t, u) && ForkInv(t) && u.fork == t.fork && p < NPROC
    requires forall x :: 0 <= x < NPROC && x != p ==> u.proc[x] == t.proc[x]
    requires t.proc[p].state != SLEEPING ==> u.proc[p] == t.proc[p].(killed := true)
    ensures ForkInv(u)
  {
    forall x | 0 <= x < NPROC ensures ForkOk(u, x) {
      assert ForkOk(t, x) && Kin(t.proc[x], u.proc[x]);
    }
  }

  lemma SetPrioFacts(t: Table, pid: int, prio: int)
    requires Inv(t)
    ensures Inv(SetPriorityStep(t, pid, prio))
  {
    hide On, Without, CpuInv, PidInv, TreeInv, ForkInv, WaitInv, Owner;
    if SetApplies(t, pid, prio) {
      var p := Owner(t, pid, NPROC).i;
      var r := t.proc[p].(priority := prio, budget := BUDGET);
      var u := SetPriorityStep(t, pid, prio);
      if r.state == RUNNABLE { MovePartition(t, p, r); }
      CpusKeep(t, u);
      FamilyKeeps(t, u);
      ForksKeep(t, u);
      WaitsKeep(t, u);
      forall x | 0 <= x < NPROC ensures ProcOk(u, x) { assert ProcOk(t, x); }
    }
  }

  lemma PromoteFacts(t: Table, now: Ticks)
    requires Inv(t)
    ensures Inv(Promote(t, now))
  {
    hide On, CpuInv, PidInv, TreeInv, ForkInv, WaitInv;
    var u := Promote(t, now);
    PromotePartition(t, now);
    CpusKeep(t, u);
    FamilyKeeps(t, u);
    ForksKeep(t, u);
    WaitsKeep(t, u);
    forall x | 0 <= x < NPROC ensures ProcOk(u, x) { assert ProcOk(t, x); }
  }

  lemma DispatchFacts(t: Table, c: nat, now: Ticks)
    requires Inv(t) && c < NCPU && t.cpu[c] == Null
    ensures Inv(Dispatch(t, c, now))
  {
    hide On, Without, CpuInv, PidInv, TreeInv, ForkInv, WaitInv;
    var j := TopReady(t.q, MAXPRIO);
    if j >= 0 {
      QueueKnown(t, ReadyQ(j));
      var p := t.q[ReadyQ(j)][0];
      var r := t.proc[p].(state := RUNNING, ticksIn := now, chan := NoChan);
      var u := Dispatch(t, c, now);
      MovePartition(t, p, r);
      CpuTakes(t, u, c, p);
      FamilyKeeps(t, u);
      ForksKeep(t, u);
      WaitsKeep(t, u);
      forall x | 0 <= x < NPROC ensures ProcOk(u, x) { assert ProcOk(t, x); }
    }
  }

  lemma SchedFacts(t: Table, c: nat, now: Ticks)
    requires Inv(t) && c < NCPU && t.cpu[c] == Null
    ensures Inv(SchedStep(t, c, now))
  {
    hide Facts, On;
    if now >= t.promoteAt {
      PromoteFacts(t, now);
      DispatchFacts(Promote(t, now), c, now);
    } else {
      DispatchFacts(t, c, now);
    }
  }

  /** A process x other than the exiting p, before and after exit. */
  ghost predicate ExitRel(t: Table, u: Table, p: nat, x: nat)
    requires Shape(t) && Shape(u) && p < NPROC && x < NPROC
  {
    var woken := t.proc[x].state == SLEEPING
                 && (t.proc[x].chan == ChanOf(t.proc[p].parent)
                   || (HasZombie(t, p) && t.proc[x].chan == OnProc(t.init)));
    u.proc[x] == t.proc[x].(state := if woken then RUNNABLE else t.proc[x].state,
                            parent := if IsChild(t, x, p) then To(t.init) else t.proc[x].parent)
  }

  lemma WokenZombies(t: Table, ch: Chan, p: nat)
    requires Partition(t)
    ensures Partition(Wakeup(t, ch)) && (HasZombie(Wakeup(t, ch), p) <==> HasZombie(t, p))
    ensures forall x :: 0 <= x < NPROC ==> (IsChild(Wakeup(t, ch), x, p) <==> IsChild(t, x, p))
  {
    hide On, Wakeup;
    WakeupEffect(t, ch);
    var u := Wakeup(t, ch);
    assert forall x :: 0 <= x < NPROC ==> (IsChild(u, x, p) <==> IsChild(t, x, p));
    assert forall x :: 0 <= x < NPROC ==> (u.proc[x].state == ZOMBIE <==> t.proc[x].state == ZOMBIE);
  }

  lemma ExitEffect(t: Table, c: nat, p: nat)
    requires Partition(t) && c < NCPU && p < NPROC && t.proc[p].state == RUNNING && !IsChild(t, p, p)
    ensures var u := ExitStep(t, c, p);
      && Partition(u) && u.cpu == t.cpu[c := Null] && u.fork == t.fork && u.nextpid == t.nextpid && u.init == t.init
      && u.proc[p] == t.proc[p].(state := ZOMBIE)
      && forall x :: 0 <= x < NPROC && x != p ==> ExitRel(t, u, p, x)
  {
    hide On, Wakeup, Without, HasZombie;
    var ch := ChanOf(t.proc[p].parent);
    var t1 := Wakeup(t, ch);
    WakeupEffect(t, ch);
    WokenZombies(t, ch, p);
    var t2 := Reparent(t1, p);
    ReparentPartition(t1, p);
    WakeupEffect(t2, OnProc(t.init));
    var t3 := if HasZombie(t1, p) then Wakeup(t2, OnProc(t.init)) else t2;
    MovePartition(t3, p, t3.proc[p].(state := ZOMBIE));
  }

  lemma ExitFamily(t: Table, u: Table, p: nat)
    requires Shape(t) && Shape(u) && PidInv(t) && TreeInv(t) && p < NPROC && p != t.init && t.proc[p].state == RUNNING
    requires u.nextpid == t.nextpid && u.init == t.init && u.proc[p] == t.proc[p].(state := ZOMBIE)
    requires forall x :: 0 <= x < NPROC && x != p ==> ExitRel(t, u, p, x)
    ensures PidInv(u) && TreeInv(u)
  {
    hide HasZombie;
    forall x | 0 <= x < NPROC ensures ParentOk(u, x) {
      assert ParentOk(t, x);
      var l := t.proc[x].parent;
      assert x != p ==> ExitRel(t, u, p, x);
      assert ExitRel(t, u, p, t.init);
      assert l.To? && l.i != p ==> ExitRel(t, u, p, l.i);
    }
    forall x | 0 <= x < NPROC
      ensures u.proc[x].pid == t.proc[x].pid && (u.proc[x].state == UNUSED <==> t.proc[x].state == UNUSED)
    {
      assert x != p ==> ExitRel(t, u, p, x);
    }
    assert ExitRel(t, u, p, t.init);
  }

  lemma ExitFacts(t: Table, c: nat)
    requires Inv(t) && Enabled(t, Exit(c))
    ensures Inv(ExitStep(t, c, t.cpu[c].i))
  {
    hide On, Wakeup, Without, CpuInv, PidInv, ExitStep;
    CpuOf(t, c);
    var p := t.cpu[c].i;
    assert ParentOk(t, p);
    ExitEffect(t, c, p);
    var u := ExitStep(t, c, p);
    forall x | 0 <= x < NPROC && x != p ensures u.proc[x].state == RUNNING <==> t.proc[x].state == RUNNING {
      assert ExitRel(t, u, p, x);
    }
    CpuLeaves(t, u, c, p);
    ExitFamily(t, u, p);
    ExitForks(t, u, p);
    forall x | 0 <= x < NPROC ensures ProcOk(u, x) {
      assert ProcOk(t, x);
      assert x != p ==> ExitRel(t, u, p, x);
    }
    ExitWaits(t, u, p);
  }

  lemma ExitForks(t: Table, u: Table, p: nat)
    requires Shape(t) && Shape(u) && ForkInv(t) && TreeInv(t) && p < NPROC && t.proc[p].state == RUNNING
    requires t.fork[p] == NotForking && u.fork == t.fork && u.proc[p] == t.proc[p].(state := ZOMBIE)
    requires forall x :: 0 <= x < NPROC && x != p ==> ExitRel(t, u, p, x)
    ensures ForkInv(u)
  {
    hide HasZombie;
    forall x | 0 <= x < NPROC ensures ForkOk(u, x) {
      assert ForkOk(t, x);
      if t.fork[x] != NotForking {
        assert ExitRel(t, u, p, x);
        assert ExitRel(t, u, p, t.fork[x].np);
      }
    }
  }

  lemma ExitWaits(t: Table, u: Table, p: nat)
    requires Shape(t) && Shape(u) && WaitInv(t) && p < NPROC && t.proc[p].state == RUNNING && t.proc[p].parent.To?
    requires t.init < NPROC && u.proc[p] == t.proc[p].(state := ZOMBIE)
    requires forall x :: 0 <= x < NPROC && x != p ==> ExitRel(t, u, p, x)
    ensures WaitInv(u)
  {
    forall x, z | 0 <= x < NPROC && 0 <= z < NPROC && u.proc[x].state == SLEEPING && u.proc[x].chan == OnProc(x)
      ensures !(u.proc[z].state == ZOMBIE && u.proc[z].parent == To(x))
    {
      assert x != p && ExitRel(t, u, p, x);
      if z != p {
        assert ExitRel(t, u, p, z);
        assert IsChild(t, z, p) && t.proc[z].state == ZOMBIE ==> HasZombie(t, p);
      }
    }
  }

  lemma StepInv(t: Table, e: Event)
    requires Inv(t) && Enabled(t, e)
    ensures Inv(Step(t, e))
  {
    hide Facts, On, Without, Owner;
    match e {
      case Claim(c, np) =>
        CpuOf(t, c);
        ClaimFacts(t, c, np);
        MovePartition(t, np, t.proc[np].(state := EMBRYO, pid := t.nextpid));
      case NoStack(c) => AbandonInv(t, c);
      case SetUp(c) => BuildInv(t, c);
      case CopyFailed(c) => AbandonInv(t, c);
      case Forked(c) => PublishInv(t, c);
      case Exit(c) => ExitFacts(t, c);
      case Wait(c, now) => WaitFacts(t, c, now);
      case Sched(c, now) => SchedFacts(t, c, now);
      case Yield(c, now) =>
        CpuOf(t, c);
        YieldFacts(t, c, now);
        SleepPartition(t, c, t.cpu[c].i, NoChan, now);
      case Sleep(c, ch, now) =>
        CpuOf(t, c);
        SleepFacts(t, c, ch, now);
        SleepPartition(t, c, t.cpu[c].i, ch, now);
      case Wake1(ch) => WakeFacts(t, ch);
      case Kill(pid) => KillFacts(t, pid);
      case SetPrio(pid, prio) => SetPrioFacts(t, pid, prio);
    }
  }

  lemma AbandonInv(t: Table, c: nat)
    requires Inv(t) && Runs(t, c) && t.fork[t.cpu[c].i] != NotForking
    ensures t.fork[t.cpu[c].i].np < NPROC && Inv(Abandon(t, t.cpu[c].i, t.fork[t.cpu[c].i].np))
  {
    hide Facts, On, Without;
    CpuOf(t, c);
    AbandonFacts(t, c);
    var np := t.fork[t.cpu[c].i].np;
    MovePartition(t, np, t.proc[np].(state := UNUSED));
  }

  lemma PublishInv(t: Table, c: nat)
    requires Inv(t) && Runs(t, c) && t.fork[t.cpu[c].i].Built?
    ensures t.fork[t.cpu[c].i].np < NPROC && Inv(Publish(t, t.cpu[c].i, t.fork[t.cpu[c].i].np))
  {
    hide Facts, On, Without;
    CpuOf(t, c);
    PublishFacts(t, c);
    var np := t.fork[t.cpu[c].i].np;
    MovePartition(t, np, t.proc[np].(parent := To(t.cpu[c].i), state := RUNNABLE));
  }

  lemma BuildInv(t: Table, c: nat)
    requires Inv(t) && Runs(t, c) && t.fork[t.cpu[c].i].Claimed?
    ensures t.fork[t.cpu[c].i].np < NPROC && Inv(Build(t, t.cpu[c].i, t.fork[t.cpu[c].i].np))
  {
    hide On;
    CpuOf(t, c);
    BuildFacts(t, c);
    assert ForkOk(t, t.cpu[c].i);
    var u := Build(t, t.cpu[c].i, t.fork[t.cpu[c].i].np);
    assert forall x :: 0 <= x < NPROC ==> Home(u.proc[x]) == Home(t.proc[x]);
    assert u.q == t.q;
  }
}
