/**
  The process table of proc.c.  Every method carries out one critical section of
  ptable.lock on the linked lists and is proved to do exactly the matching event
  of Scheduler; `ok` is false where the kernel panics.
 */
module ProcTable {
  import opened Seqs
  import opened Scheduler
  import opened SchedulerRuns
  import SchedulerEffects
  import opened ProcLists
  import opened ProcWalks

  class Ptable {
    var proc: seq<Proc>
    var next: seq<Link>
    var list: seq<Ptrs>          // by state
    var ready: seq<Ptrs>         // by priority
    var cpu: seq<Link>           // the process current on each CPU
    var nextpid: nat
    var initproc: nat
    var promoteAt: Ticks
    ghost var q: seq<seq<nat>>
    ghost var fork: seq<Forking>

    ghost function View(): Table
      reads this
    {
      Table(proc, q, cpu, fork, nextpid, initproc, promoteAt)
    }

    ghost predicate Lists()
      reads this
    {
      |list| == 6 && |ready| == MAXPRIO + 1 && Linked(next, list + ready, q) && Apart(q)
    }

    ghost predicate Valid()
      reads this
    {
      Inv(View()) && Lists()
    }

    /** userinit: all processes go on the free list in order, the first one becomes init. */
    constructor (now: Ticks)
      ensures Valid() && View() == Booted(now)
    {
      proc, next := seq(NPROC, p => Proc(UNUSED, 0, Null, NoChan, false, 0, 0, 0)), seq(NPROC, p => Null);
      list, ready := seq(6, i => Ptrs(Null, Null)), seq(MAXPRIO + 1, i => Ptrs(Null, Null));
      cpu, nextpid, initproc, promoteAt := seq(NCPU, c => Null), 1, 0, 0;
      q, fork := seq(NQ, k => []), seq(NPROC, p => NotForking);
      new;
      hide Linked, Apart, Booted, FreeUpto, Inv;
      NothingListed(next, list + ready, q);
      InitFreeList();
      FirstProcess(now);
    }

    /** allocproc and the rest of userinit. */
    method FirstProcess(now: Ticks)
      requires Lists() && AllFree(View())
      modifies this
      ensures Valid() && View() == Booted(now)
    {
      hide Partition, Linked, Apart, Move, Booted, AllFree, Inv;
      BootSteps(View(), now);
      var head := HeadOf(StateQ(UNUSED));
      var p := head.i;
      var ok := Transition(StateQ(UNUSED), p, UNUSED, proc[p].(state := EMBRYO, pid := nextpid));
      nextpid := nextpid + 1;
      proc := proc[p := proc[p].(budget := BUDGET, priority := MAXPRIO, ticksIn := 0)];
      ok := Transition(StateQ(EMBRYO), p, EMBRYO, proc[p].(state := RUNNABLE));
      promoteAt := U32(now + TICKS_TO_PROMOTE);
      BootedInv(now);
    }

    method InitFreeList()
      requires Lists() && q == FreeUpto(0)
      modifies this`list, this`ready, this`next, this`q
      ensures Lists() && q == FreeUpto(NPROC)
    {
      hide Lists, FreeUpto;
      var p := 0;
      while p < NPROC
        invariant 0 <= p <= NPROC && Lists() && q == FreeUpto(p)
      {
        FreeNext(p);
        StateListAdd(StateQ(UNUSED), p);
        p := p + 1;
      }
    }

    /** A pointer to one of the lists is its queue number. */
    function At(k: nat): (pt: Ptrs)
      requires |list| == 6 && |ready| == MAXPRIO + 1 && k < NQ
      reads this
      ensures pt == (list + ready)[k]
    {
      if k < 6 then list[k] else ready[k-6]
    }

    method SetPtrs(k: nat, pt: Ptrs)
      requires |list| == 6 && |ready| == MAXPRIO + 1 && k < NQ
      modifies this`list, this`ready
      ensures |list| == 6 && |ready| == MAXPRIO + 1
      ensures list + ready == (old(list) + old(ready))[k := pt]
    {
      if k < 6 { list := list[k := pt]; } else { ready := ready[k-6 := pt]; }
    }

    method StateListAdd(k: nat, p: nat)
      requires Lists() && k < NQ && p < NPROC && forall l :: !On(q, l, p)
      modifies this`list, this`ready, this`next, this`q
      ensures Lists() && q == old(q)[k := old(q)[k] + [p]]
    {
      assert p !in q[k] by { assert !On(q, k, p); }
      ghost var s, n0, pts := q[k], next, list + ready;
      assert IsList(next, At(k), s);
      AppendList(next, At(k), s, p);
      if At(k).head == Null {
        SetPtrs(k, Ptrs(To(p), To(p)));
        next := next[p := Null];
      } else {
        var tail := At(k).tail.i;
        next := next[tail := To(p)];
        SetPtrs(k, Ptrs(At(k).head, next[tail]));
        next := next[next[tail].i := Null];
      }
      AddFrame(n0, next, pts, q, k, p);
      AddApart(q, k, p);
      q := q[k := s + [p]];
    }

    method StateListRemove(k: nat, p: nat) returns (r: int)
      requires Lists() && k < NQ && p < NPROC
      modifies this`list, this`ready, this`next, this`q
      ensures Lists() && (r == 0 || r == -1)
      ensures r == -1 <==> !On(old(q), k, p)
      ensures r == -1 ==> list == old(list) && ready == old(ready) && next == old(next) && q == old(q)
      ensures r == 0 ==> q == old(q)[k := Without(old(q)[k], p)]
    {
      hide Leads, NoDup, Without;
      ghost var s, pts := q[k], list + ready;
      assert IsList(next, At(k), s);
      assert NoDup(s);
      if At(k).head == Null || At(k).tail == Null { return -1; }
      RemoveApart(q, k, p);
      if At(k).head.i == p {
        UnlinkHead(next, At(k), s);
        if At(k).tail == To(p) {
          SetPtrs(k, Ptrs(next[p], Null));
        } else {
          SetPtrs(k, Ptrs(next[p], At(k).tail));
        }
        q := q[k := Without(s, p)];
        return 0;
      }
      var current, previous := FindOnList(k, p);
      if current == Null { return -1; }
      ghost var j :| 0 < j < |s| && s[j] == p && previous == To(s[j-1]);
      if current == At(k).tail {
        assert j == |s| - 1 by { if j < |s| - 1 { Distinct(s, j, |s| - 1); } }
        UnlinkLast(next, At(k), s);
        RemoveFrame(next, pts, q, k, previous.i, Null, p, Null);
        SetPtrs(k, Ptrs(At(k).head, previous));
        next := next[previous.i := Null];
      } else {
        assert j < |s| - 1;
        UnlinkInner(next, At(k), s, j, Without(s, p));
        RemoveFrame(next, pts, q, k, previous.i, next[p], p, Null);
        next := next[previous.i := next[current.i]];
      }
      next := next[p := Null];
      q := q[k := Without(s, p)];
      return 0;
    }

    /** The search loop of stateListRemove; p is not the head. */
    method FindOnList(k: nat, p: nat) returns (current: Link, previous: Link)
      requires Lists() && k < NQ && q[k] != [] && q[k][0] != p
      ensures current == Null <==> !On(q, k, p)
      ensures current.To? ==> current.i == p && exists j :: 0 < j < |q[k]| && q[k][j] == p && previous == To(q[k][j-1])
    {
      ghost var s := q[k];
      assert IsList(next, At(k), s);
      current, previous := At(k).head, Null;
      ghost var j := 0;
      while current.To?
        invariant 0 <= j <= |s| && current == (if j < |s| then To(s[j]) else Null)
        invariant j > 0 ==> previous == To(s[j-1])
        invariant forall i :: 0 <= i < j ==> s[i] != p
        decreases |s| - j
      {
        if current.i == p { return; }
        assert Leads(next, s, j);
        previous := current;
        current := next[current.i];
        j := j + 1;
      }
    }

    /** stateListRemove, the two panics, the change of fields, stateListAdd. */
    method Transition(from: nat, p: nat, expected: PState, r: Proc) returns (ok: bool)
      requires Partition(View()) && Lists() && p < NPROC && from < NQ && r.priority <= MAXPRIO
      modifies this`proc, this`list, this`ready, this`next, this`q
      ensures ok <==> from == Home(old(proc)[p]) && old(proc)[p].state == expected
      ensures ok ==> Lists() && View() == Move(old(View()), p, r) && Partition(View())
    {
      hide On, Without, NoDup, Linked;
      ghost var q0 := q;
      assert On(q0, Home(proc[p]), p);
      MovePartition(View(), p, r);
      RemoveApart(q0, from, p);
      var removed := StateListRemove(from, p);
      if removed == -1 { return false; }
      if proc[p].state != expected { return false; }
      proc := proc[p := r];
      assert forall l :: On(q, l, p) <==> On(q0, l, p) && l != from;
      StateListAdd(Home(r), p);
      return true;
    }

    // ---- fork ----

    /** allocproc reads the head of the free list before it takes the lock. */
    method FreeHead() returns (l: Link)
      requires Valid()
      ensures l.To? ==> l.i < NPROC && proc[l.i].state == UNUSED
      ensures l == Null <==> forall p :: 0 <= p < NPROC ==> proc[p].state != UNUSED
    {
      hide Facts;
      l := At(StateQ(UNUSED)).head;
      assert IsList(next, At(StateQ(UNUSED)), q[StateQ(UNUSED)]);
      QueueKnown(View(), StateQ(UNUSED));
      forall p: nat | p < NPROC && proc[p].state == UNUSED ensures l != Null { assert On(q, Home(proc[p]), p); }
    }

    /** np is a head read earlier: the panics fire exactly when it is no longer UNUSED. */
    method Claim(c: nat, np: nat) returns (ok: bool)
      requires Valid() && Runs(View(), c) && fork[cpu[c].i] == NotForking && np < NPROC
      modifies this
      ensures ok <==> old(proc)[np].state == UNUSED
      ensures ok ==> Valid() && Took(old(View()), Event.Claim(c, np), View())
    {
      hide Facts, On, Linked;
      CpuOf(View(), c);
      if proc[np].state == UNUSED { StepInv(View(), Event.Claim(c, np)); }
      ok := Transition(StateQ(proc[np].state), np, UNUSED, proc[np].(state := EMBRYO, pid := nextpid));
      if !ok { return; }
      nextpid := nextpid + 1;
      fork := fork[cpu[c].i := Claimed(np)];
    }

    /** allocproc, with the kernel stack in hand. */
    method SetUp(c: nat, np: nat)
      requires Lists() && Can(View(), Event.SetUp(c)) && fork[cpu[c].i] == Claimed(np)
      modifies this`proc, this`fork
      ensures Valid() && Took(old(View()), Event.SetUp(c), View())
    {
      hide Facts, On, Linked;
      CpuOf(View(), c);
      ForkingOk(View(), c);
      StepInv(View(), Event.SetUp(c));
      proc := proc[np := proc[np].(budget := BUDGET, priority := MAXPRIO, ticksIn := 0)];
      fork := fork[cpu[c].i := Built(np)];
    }

    /** allocproc without a kernel stack. */
    method NoStack(c: nat, np: nat) returns (ok: bool)
      requires Lists() && Can(View(), Event.NoStack(c)) && fork[cpu[c].i] == Claimed(np)
      modifies this
      ensures ok && Valid() && Took(old(View()), Event.NoStack(c), View())
    {
      hide Facts, On, Linked, Move;
      CpuOf(View(), c);
      EmbryoOf(View(), c);
      StepInv(View(), Event.NoStack(c));
      ok := Transition(StateQ(proc[np].state), np, EMBRYO, proc[np].(state := UNUSED));
      fork := fork[cpu[c].i := NotForking];
    }

    /** fork after copyuvm failed. */
    method CopyFailed(c: nat, np: nat) returns (ok: bool)
      requires Lists() && Can(View(), Event.CopyFailed(c)) && fork[cpu[c].i] == Built(np)
      modifies this
      ensures ok && Valid() && Took(old(View()), Event.CopyFailed(c), View())
    {
      hide Facts, On, Linked, Move;
      CpuOf(View(), c);
      EmbryoOf(View(), c);
      StepInv(View(), Event.CopyFailed(c));
      ok := Transition(StateQ(proc[np].state), np, EMBRYO, proc[np].(state := UNUSED));
      fork := fork[cpu[c].i := NotForking];
    }

    /** The end of fork. */
    method Forked(c: nat, np: nat) returns (ok: bool)
      requires Lists() && Can(View(), Event.Forked(c)) && fork[cpu[c].i] == Built(np)
      modifies this
      ensures ok && Valid() && Took(old(View()), Event.Forked(c), View())
      ensures SchedulerEffects.HasChildNow(old(View()), View(), c, np)
    {
      hide Facts, On, Linked, Move, SchedulerEffects.HasChildNow;
      SchedulerEffects.ForkedEffect(View(), c);
      CpuOf(View(), c);
      EmbryoOf(View(), c);
      StepInv(View(), Event.Forked(c));
      ok := Transition(StateQ(proc[np].state), np, EMBRYO, proc[np].(parent := To(cpu[c].i), state := RUNNABLE));
      fork := fork[cpu[c].i := NotForking];
    }

    // ---- giving up the CPU ----

    method Yield(c: nat, now: Ticks) returns (ok: bool)
      requires Lists() && Can(View(), Event.Yield(c, now))
      modifies this
      ensures ok && Valid() && Took(old(View()), Event.Yield(c, now), View())
      ensures SchedulerEffects.GivesUpCpu(old(View()), View(), c, now)
    {
      hide Facts, On, Linked, Move, SchedulerEffects.GivesUpCpu;
      ghost var v0 := View();
      CpuOf(View(), c);
      StepInv(View(), Event.Yield(c, now));
      var p := cpu[c].i;
      ok := Transition(StateQ(proc[p].state), p, RUNNING, Charged(proc[p], now).(state := RUNNABLE));
      cpu := cpu[c := Null];
      SchedulerEffects.YieldEffect(v0, c, now);
    }

    /** sleep from the moment ptable.lock is held to the switch away. */
    method Sleep(c: nat, ch: Chan, now: Ticks) returns (ok: bool)
      requires Lists() && CanSleep(View(), c, ch, now)
      modifies this
      ensures ok && Valid() && Slept(old(View()), c, ch, now, View())
    {
      hide Facts, On, Linked, Move;
      CpuOf(View(), c);
      var p := cpu[c].i;
      SleepFacts(View(), c, ch, now);
      SleepPartition(View(), c, p, ch, now);
      ok := Transition(StateQ(proc[p].state), p, RUNNING, Charged(proc[p], now).(chan := ch, state := SLEEPING));
      cpu := cpu[c := Null];
    }

    // ---- wakeup1 ----

    method Wakeup1(ch: Chan) returns (ok: bool)
      requires Partition(View()) && Lists()
      modifies this`proc, this`list, this`ready, this`next, this`q
      ensures ok && Lists() && Partition(View()) && Woke(old(View()), ch, View())
    {
      hide Partition, Waking, Move, IsList, Apart;
      ghost var s, kept, j: nat, v0 := q[StateQ(SLEEPING)], [], 0, View();
      WakeStart(v0, ch);
      var p := HeadOf(StateQ(SLEEPING));
      while p.To?
        invariant j <= |s| && p == Ahead(s, j)
        invariant Lists() && Waking(v0, View(), kept, s, j, ch)
        decreases |s| - j
      {
        WakeNext(v0, View(), next, At(StateQ(SLEEPING)), kept, s, j, ch);
        var temp := next[p.i];
        if proc[p.i].chan == ch {
          ok := Transition(StateQ(proc[p.i].state), p.i, SLEEPING, proc[p.i].(state := RUNNABLE));
          if !ok { return; }
        } else {
          kept := kept + [p.i];
        }
        p, j := temp, j + 1;
      }
      WakeDone(v0, View(), kept, s, ch);
      ok := true;
    }

    method HeadOf(k: nat) returns (l: Link)
      requires Lists() && k < NQ
      ensures l == Ahead(q[k], 0)
    {
      assert IsList(next, At(k), q[k]);
      l := At(k).head;
    }

    // ---- kill, setpriority, getpriority ----

    /** Along one list: the first process with this pid. */
    method FindPidOn(k: nat, pid: int) returns (l: Link)
      requires Partition(View()) && Lists() && k < NQ
      ensures l.To? ==> l.i < NPROC && Home(proc[l.i]) == k && proc[l.i].pid == pid
      ensures l == Null ==> forall p :: 0 <= p < NPROC && Home(proc[p]) == k ==> proc[p].pid != pid
    {
      hide On, NoDup, Leads, Linked;
      QueueKnown(View(), k);
      l := HeadOf(k);
      ghost var j: nat := 0;
      while l.To?
        invariant j <= |q[k]| && l == Ahead(q[k], j)
        invariant forall i :: 0 <= i < j ==> proc[q[k][i]].pid != pid
        decreases |q[k]| - j
      {
        if proc[l.i].pid == pid { return; }
        NextOn(k, j);
        l, j := next[l.i], j + 1;
      }
      AllOn(View(), k);
    }

    ghost method NextOn(k: nat, j: nat)
      requires Lists() && k < NQ && j < |q[k]|
      ensures q[k][j] < |next| && next[q[k][j]] == Ahead(q[k], j + 1)
    {
      assert IsList(next, At(k), q[k]) && Leads(next, q[k], j);
    }

    /** The nested loops over the lists of states lo to hi - 1, the ready queues from the top in place of RUNNABLE. */
    method FindPid(lo: nat, hi: nat, pid: int) returns (ok: bool, l: Link)
      requires Partition(View()) && Lists() && 1 <= lo <= hi <= 6
      ensures ok
      ensures l.To? ==> l.i < NPROC && lo <= StateQ(proc[l.i].state) < hi && proc[l.i].pid == pid
      ensures l == Null ==> forall p :: 0 <= p < NPROC && lo <= StateQ(proc[p].state) < hi ==> proc[p].pid != pid
    {
      hide On, NoDup, Lists, Partition;
      PartitionApart(View());
      var i := lo;
      while i < hi
        invariant lo <= i <= hi
        invariant forall p :: 0 <= p < NPROC && lo <= StateQ(proc[p].state) < i ==> proc[p].pid != pid
      {
        if i == StateQ(RUNNABLE) {
          NoneRunnable(View());
          var h := HeadOf(i);
          if h != Null { return false, Null; }
          var j := MAXPRIO;
          while j >= 0
            invariant -1 <= j <= MAXPRIO
            invariant forall p :: 0 <= p < NPROC && proc[p].state == RUNNABLE && proc[p].priority > j ==>
              proc[p].pid != pid
          {
            l := FindPidOn(ReadyQ(j), pid);
            if l.To? { return true, l; }
            j := j - 1;
          }
        } else {
          l := FindPidOn(i, pid);
          if l.To? { return true, l; }
        }
        i := i + 1;
      }
      return true, Null;
    }

    method Kill(pid: int) returns (ok: bool, r: int)
      requires Valid()
      modifies this`proc, this`list, this`ready, this`next, this`q
      ensures ok && Valid() && Took(old(View()), Event.Kill(pid), View())
      ensures r == if Owner(old(View()), pid, NPROC).To? then 0 else -1
      ensures r == 0 <==> exists x :: 0 <= x < NPROC && old(proc)[x].state != UNUSED && old(proc)[x].pid == pid
    {
      hide Facts, On, NoDup, Linked, Move, Owner;
      ghost var v0 := View();
      StepInv(v0, Event.Kill(pid));
      var l;
      ok, l := FindPid(1, 6, pid);
      OwnerIs(v0, pid, l);
      if l == Null { return true, -1; }
      proc := proc[l.i := proc[l.i].(killed := true)];
      SameHomes(v0, View());
      if proc[l.i].state == SLEEPING {
        ok := Transition(StateQ(proc[l.i].state), l.i, SLEEPING, proc[l.i].(state := RUNNABLE));
      }
      return ok, 0;
    }

    method SetPriority(pid: int, prio: int) returns (ok: bool, r: int)
      requires Valid()
      modifies this`proc, this`list, this`ready, this`next, this`q
      ensures ok && Valid() && Took(old(View()), Event.SetPrio(pid, prio), View())
      ensures r == if SetApplies(old(View()), pid, prio) then 0 else -1
    {
      hide Facts, On, NoDup, Linked, Move, Owner;
      ghost var v0 := View();
      StepInv(v0, Event.SetPrio(pid, prio));
      if pid < 0 || pid > 32767 { return true, -1; }
      if prio < 0 || prio > MAXPRIO { return true, -1; }
      var l;
      ok, l := FindPid(StateQ(SLEEPING), StateQ(RUNNING) + 1, pid);
      if l == Null { return true, -1; }
      OwnerIs(v0, pid, l);
      if proc[l.i].priority != prio {
        var rec := proc[l.i].(priority := prio, budget := BUDGET);
        if proc[l.i].state == RUNNABLE {
          ok := Transition(ReadyQ(proc[l.i].priority), l.i, RUNNABLE, rec);
        } else {
          proc := proc[l.i := rec];
        }
      }
      return ok, 0;
    }

    method GetPriority(pid: int) returns (ok: bool, r: int)
      requires Valid()
      ensures ok
      ensures r == if 0 <= pid <= 32767 && Owner(View(), pid, NPROC).To?
        && proc[Owner(View(), pid, NPROC).i].state != EMBRYO
                   then proc[Owner(View(), pid, NPROC).i].priority else -1
    {
      hide Facts, On, NoDup, Linked, Owner;
      if pid < 0 || pid > 32767 { return true, -1; }
      var l;
      ok, l := FindPid(StateQ(SLEEPING), StateQ(ZOMBIE) + 1, pid);
      if l.To? {
        OwnerIs(View(), pid, l);
        return ok, proc[l.i].priority;
      }
      r := -1;
    }

    // ---- wait ----

    /** Along one list: the first child of cur. */
    method FindChildOn(k: nat, cur: nat) returns (l: Link)
      requires Partition(View()) && Lists() && k < NQ
      ensures FirstChildIs(View(), k, cur, l)
      ensures l.To? ==> l.i < NPROC && Home(proc[l.i]) == k && proc[l.i].parent == To(cur)
      ensures l == Null ==> forall p :: 0 <= p < NPROC && Home(proc[p]) == k ==> proc[p].parent != To(cur)
    {
      hide On, NoDup, Leads, Linked;
      QueueKnown(View(), k);
      l := HeadOf(k);
      ghost var j: nat := 0;
      assert q[k][0..] == q[k];
      while l.To? && proc[l.i].parent != To(cur)
        invariant j <= |q[k]| && l == Ahead(q[k], j)
        invariant forall i :: 0 <= i < j ==> proc[q[k][i]].parent != To(cur)
        invariant FirstChild(proc, q[k], cur) == FirstChild(proc, q[k][j..], cur)
        decreases |q[k]| - j
      {
        NextOn(k, j);
        assert q[k][j..][1..] == q[k][j+1..];
        l, j := next[l.i], j + 1;
      }
      AllOn(View(), k);
    }

    /** One pass of wait's loop. */
    method Wait(c: nat, now: Ticks) returns (ok: bool, r: WaitResult)
      requires Lists() && Can(View(), Event.Wait(c, now))
      modifies this
      ensures ok && Valid() && Waited(old(View()), c, now, View(), r)
    {
      hide Facts, On, NoDup, Linked, Move, FirstChild;
      CpuOf(View(), c);
      StepInv(View(), Event.Wait(c, now));
      var cur := cpu[c].i;
      var havekids, z;
      ok, havekids, z := ScanChildren(cur);
      ZombieFound(View(), cur);
      if z.To? {
        var pid := proc[z.i].pid;
        ok := Transition(StateQ(proc[z.i].state), z.i, ZOMBIE, Reap(proc[z.i]));
        return ok, Reaped(pid);
      }
      if !havekids || proc[cur].killed { return ok, Failed; }
      ok := Sleep(c, OnProc(cur), now);
      return ok, Blocked;
    }

    /** The scan of wait over the lists of all states but UNUSED, up to the first zombie child. */
    method ScanChildren(cur: nat) returns (ok: bool, havekids: bool, z: Link)
      requires Partition(View()) && Lists()
      ensures ok && FirstChildIs(View(), StateQ(ZOMBIE), cur, z)
      ensures z == Null ==> (havekids <==> HasChild(View(), cur))
    {
      hide On, NoDup, Lists, FirstChildIs;
      havekids, z := false, Null;
      var i := 1;
      while i < 6
        invariant 1 <= i <= 6
        invariant havekids ==> HasChild(View(), cur)
        invariant !havekids ==> forall p :: 0 <= p < NPROC && 1 <= StateQ(proc[p].state) < i ==>
          proc[p].parent != To(cur)
        invariant i == 6 ==> FirstChildIs(View(), StateQ(ZOMBIE), cur, Null)
      {
        if i == StateQ(RUNNABLE) {
          NoneRunnable(View());
          var h := HeadOf(i);
          if h != Null { return false, false, Null; }
          var kids := ReadyChildren(cur);
          havekids := havekids || kids;
        } else {
          var l := FindChildOn(i, cur);
          if l.To? {
            assert IsChild(View(), l.i, cur);
            havekids := true;
            if proc[l.i].state == ZOMBIE { return true, true, l; }
          }
        }
        i := i + 1;
      }
      return true, havekids, Null;
    }

    method ReadyChildren(cur: nat) returns (kids: bool)
      requires Partition(View()) && Lists()
      ensures kids ==> HasChild(View(), cur)
      ensures !kids ==> forall p :: 0 <= p < NPROC && proc[p].state == RUNNABLE ==> proc[p].parent != To(cur)
    {
      hide On, NoDup, Lists;
      var j := MAXPRIO;
      kids := false;
      while j >= 0
        invariant -1 <= j <= MAXPRIO
        invariant kids ==> HasChild(View(), cur)
        invariant !kids ==>
          forall p :: 0 <= p < NPROC && proc[p].state == RUNNABLE && proc[p].priority > j ==> proc[p].parent != To(cur)
      {
        var l := FindChildOn(ReadyQ(j), cur);
        if l.To? {
          assert IsChild(View(), l.i, cur);
          kids := true;
        }
        j := j - 1;
      }
    }

    // ---- exit ----

    /** Along one list: cur's children become init's, and init is woken for each zombie among them. */
    method AdoptOn(k: nat, cur: nat, ghost t1: Table, ghost w0: bool, ghost done: set<nat>)
      returns (ok: bool, ghost w: bool)
      requires Lists() && k < NQ && k != StateQ(UNUSED) && Adopting(t1, View(), cur, w0, done)
      requires forall x :: x in q[k] ==> x !in done
      modifies this`proc, this`list, this`ready, this`next, this`q
      ensures ok && Lists() && Adopting(t1, View(), cur, w, done + Elements(old(q)[k]))
      ensures k != StateQ(ZOMBIE) ==> !w == !w0 && q == old(q)
    {
      hide Adopting, NoDup, IsList, Leads, Partition, Elements;
      ghost var s, j: nat := q[k], 0;
      w := w0;
      ElementsNone();
      assert s[..0] == [] && done + {} == done;
      var p := HeadOf(k);
      while p.To?
        invariant Lists() && q[k] == s && j <= |s| && p == Ahead(s, j)
        invariant Adopting(t1, View(), cur, w, done + Elements(s[..j]))
        invariant k != StateQ(ZOMBIE) ==> !w == !w0 && q == old(q)
        decreases |s| - j
      {
        AdoptOne(t1, View(), cur, w, done, s, j, k);
        if proc[p.i].parent == To(cur) {
          proc := proc[p.i := proc[p.i].(parent := To(initproc))];
          if proc[p.i].state == ZOMBIE {
            w := true;
            ok := Wakeup1(OnProc(initproc));
          }
        }
        NextOn(k, j);
        p, j := next[p.i], j + 1;
      }
      assert s[..j] == s;
      ok := true;
    }

    /** exit's nested loops over all lists but the free list. */
    method Adopt(cur: nat) returns (ok: bool)
      requires Partition(View()) && Lists()
      modifies this`proc, this`list, this`ready, this`next, this`q
      ensures ok && Lists() && AdoptedAll(old(View()), cur, View())
    {
      hide Adopting, Partition, Linked, Apart, Elements, Home;
      ghost var t1, w, done := View(), false, {};
      AdoptStart(t1, cur);
      var i := 1;
      while i < 6
        invariant 1 <= i <= 6 && Lists() && Adopting(t1, View(), cur, w, done) && Upto(t1, done, i, MAXPRIO)
        invariant i < 6 ==> !w && q == t1.q
      {
        if i == StateQ(RUNNABLE) {
          NoneRunnable(t1);
          var h := HeadOf(i);
          if h != Null { return false; }
          var j := MAXPRIO;
          while j >= 0
            invariant -1 <= j <= MAXPRIO && Lists() && Adopting(t1, View(), cur, w, done) && Upto(t1, done, 3, j)
            invariant !w && q == t1.q
          {
            UptoQueue(t1, done, i, j, ReadyQ(j));
            ok, w := AdoptOn(ReadyQ(j), cur, t1, w, done);
            done := done + Elements(t1.q[ReadyQ(j)]);
            j := j - 1;
          }
          UptoReady(t1, done);
        } else {
          UptoQueue(t1, done, i, MAXPRIO, i);
          ok, w := AdoptOn(i, cur, t1, w, done);
          done := done + Elements(t1.q[i]);
        }
        i := i + 1;
      }
      AdoptDone(t1, View(), cur, w, done);
      ok := true;
    }

    method Exit(c: nat) returns (ok: bool)
      requires Lists() && MayExit(View(), c)
      modifies this
      ensures ok <==> old(cpu[c]) != To(old(initproc))
      ensures ok ==> Valid() && Took(old(View()), Event.Exit(c), View())
    {
      hide Facts, Partition, Linked, Move, Wakeup, AdoptedAll;
      ghost var v0 := View();
      CpuOf(v0, c);
      PartitionApart(v0);
      var cur := cpu[c].i;
      if cur == initproc { return false; }
      StepInv(v0, Event.Exit(c));
      ok := Wakeup1(ChanOf(proc[cur].parent));
      ok := Adopt(cur);
      ExitEnd(v0, c, cur, View());
      ok := Transition(StateQ(proc[cur].state), cur, RUNNING, proc[cur].(state := ZOMBIE));
      cpu := cpu[c := Null];
    }

    // ---- the scheduler ----

    /** Along the SLEEPING or RUNNING list: budgets and priorities only. */
    method PromoteOn(k: nat)
      requires Partition(View()) && Lists() && (k == StateQ(SLEEPING) || k == StateQ(RUNNING))
      modifies this`proc
      ensures Partition(View()) && IsLifted(old(View()), k, View())
    {
      hide NoDup, Leads, Linked, Partition, LiftedProcs, Apart;
      PartitionApart(View());
      ghost var u0, s, j: nat := View(), q[k], 0;
      LiftedStart(u0, k);
      var p := HeadOf(k);
      while p.To?
        invariant j <= |s| && p == Ahead(s, j) && LiftedProcs(u0, View(), s[..j]) && |proc| == NPROC
        decreases |s| - j
      {
        LiftedNext(u0, View(), k, j);
        ghost var promoted := proc[p.i := Promoted(proc[p.i])];
        var priority := proc[p.i].priority;
        proc := proc[p.i := proc[p.i].(budget := BUDGET)];
        if priority < MAXPRIO { proc := proc[p.i := proc[p.i].(priority := priority + 1)]; }
        assert proc == promoted;
        NextOn(k, j);
        p, j := next[p.i], j + 1;
      }
      assert s[..j] == s;
      LiftedPartition(u0, View(), k);
    }

    /** One ready queue moves to the end of the next one up. */
    method PromoteLevel(level: nat) returns (ok: bool)
      requires Partition(View()) && Lists() && level < MAXPRIO
      modifies this`proc, this`list, this`ready, this`next, this`q
      ensures ok && Lists() && Raising(old(View()), View(), level, |old(q)[ReadyQ(level)]|)
    {
      hide Raising, Partition, IsList, Apart, Move;
      ghost var u0, s, m: nat := View(), q[ReadyQ(level)], 0;
      RaisingStart(u0, level);
      var p := HeadOf(ReadyQ(level));
      while p.To?
        invariant Lists() && m <= |s| && p == Ahead(s, m) && Raising(u0, View(), level, m)
        decreases |s| - m
      {
        RaisingNext(u0, View(), level, m, next, At(ReadyQ(level)));
        var tmp := next[p.i];
        var r := proc[p.i].(budget := BUDGET);
        if r.priority < MAXPRIO {
          if r.priority != level { return false; }
          ok := Transition(ReadyQ(r.priority), p.i, RUNNABLE, r.(priority := r.priority + 1));
          if !ok { return; }
        }
        p, m := tmp, m + 1;
      }
      ok := true;
    }

    method PromoteAll(now: Ticks) returns (ok: bool)
      requires Partition(View()) && Lists()
      modifies this`proc, this`list, this`ready, this`next, this`q, this`promoteAt
      ensures ok && Lists() && Partition(View()) && IsPromoted(old(View()), now, View())
    {
      hide Partition, Linked, Apart, Progress, Raising, IsLifted;
      ghost var t := View();
      ProgressStart(t);
      var i := StateQ(SLEEPING);
      while i <= StateQ(RUNNING)
        invariant 2 <= i <= 5 && Lists() && Progress(t, View(), i, if i <= 3 then MAXPRIO - 1 else -1)
      {
        ghost var u := View();
        if i == StateQ(RUNNABLE) {
          ProgressRunnable(t, u);
          var h := HeadOf(i);
          if h != Null { return false; }
          var j := MAXPRIO - 1;
          while j >= 0
            invariant -1 <= j < MAXPRIO && Lists() && Progress(t, View(), 3, j)
          {
            ghost var u := View();
            ProgressPartition(t, u, 3, j);
            ok := PromoteLevel(j);
            ProgressLevel(t, u, View(), j);
            j := j - 1;
          }
        } else {
          ProgressPartition(t, u, i, if i <= 3 then MAXPRIO - 1 else -1);
          PromoteOn(i);
          ProgressList(t, u, View(), i, if i <= 3 then MAXPRIO - 1 else -1);
        }
        i := i + 1;
        ProgressMiddle(t, View(), i);
      }
      ProgressDone(t, View(), now);
      promoteAt := U32(now + TICKS_TO_PROMOTE);
      ok := true;
    }

    /** One pass of the scheduler's loop, up to the switch to the process. */
    method RunScheduler(c: nat, now: Ticks) returns (ok: bool)
      requires Lists() && Can(View(), Event.Sched(c, now))
      modifies this
      ensures ok && Valid() && Took(old(View()), Event.Sched(c, now), View())
    {
      hide Facts, Partition, Linked, Move, Promote, TopReady;
      StepInv(View(), Event.Sched(c, now));
      PartitionApart(View());
      if now >= promoteAt {
        ok := PromoteAll(now);
        PartitionApart(View());
      }
      var i := MAXPRIO;
      ghost var t := View();
      while i >= 0
        invariant Lists() && View() == t && -1 <= i <= MAXPRIO && TopReady(q, MAXPRIO) == TopReady(q, i)
      {
        TopReadyNext(q, i);
        var p := HeadOf(ReadyQ(i));
        if p.To? {
          ReadyHead(t, i);
          ok := Transition(ReadyQ(i), p.i, RUNNABLE, proc[p.i].(state := RUNNING, ticksIn := now, chan := NoChan));
          cpu := cpu[c := p];
          return;
        }
        i := i - 1;
      }
      TopReadyNext(q, i);
      ok := true;
    }
  }
}
